# SettleMate AI: verified models of the matcher, the ledgers and the migration runner

This project models five pieces of SettleMate AI in Dafny and proves what they promise, for
all inputs and, where the code is concurrent, for all interleavings.

- **Invoice matcher** (`services/solver`). `InvoiceSelection.dfy` states the optimisation
  problem on its own: a subset is a strictly increasing sequence of positions, the objective is
  `difference * 1000 + count`, and the canonical optimum is the least objective, ties broken by
  lexicographic order of positions. An unpruned enumeration (`BruteForce`) computes it.
  `BranchAndBound.dfy` holds the pruned, backtracking search as a class with mutable fields and
  proves that it finds that optimum. The proof follows a frontier: when the search is about to
  visit a subset, the recorded best is the optimum of everything that precedes the subset in
  lexicographic order. `SubsetSums.dfy` shows that selections and Boolean masks reach the same
  (sum, count) pairs and that these ignore the order of the amounts. `InvoiceMatcher.dfy` adds
  the stable sort, the partial-payment exit and the fast path; `SolverAgreement.dfy` compares the
  CP-SAT formulation with the search and states what callers may rely on; `MatchService.dfy` is
  the HTTP endpoint's logic.
- **Coalescing ledger** (`scripts/benchmark-hotkey-scale.ts`), in `CoalescingLedger.dfy`. Posts
  and flush microtasks are atomic steps in any order. The class methods are tied to step
  functions, and the invariants are proved for every sequence of steps.
- **Compare-and-swap store** (`scripts/benchmark-cas-contention.ts`), in `CasStore.dfy`. A call
  is split at its `await`; suspended calls resume in any order.
- **Migration runner** (`scripts/init-postgres.ts`). `MigrationRunner.dfy` has the transaction
  with one savepoint per statement, the bookkeeping and the loop of `main`, for an arbitrary
  database engine. `MigrationProtocol.dfy` lets any number of runners interleave statement by
  statement, with crashes, around the advisory lock.
- **Lehmer generator** (`scripts/fuzz-invariants.ts`), in `LehmerGenerator.dfy`.

Two promises turned out to hold only under a condition, and the condition is proved exact:

- The CP-SAT model declares its difference variable on `[0, max(payment, 1000000)]`, so with a
  larger tolerance it can miss a match that the search finds. `OversizedTolerance` gives the
  input; `AgreementIffToleranceFits` shows that the two agree on all inputs if and only if the
  tolerance fits in that domain, and `OrToolsNeverMattersIff` lifts this to the service's requests.
- The generator's constructor maps a negative seed congruent to -2147483646 to the state 0, where
  it stays forever, and every `nextInt` is then out of range. `NextIntInRangeIff` shows that this
  family of seeds is the only one.

Each operation answers to a description that does not mention how it is computed: `IsOutcome`,
`IsCpOutcome` and `IsReply` for the matcher and its service, `IsCommitted` and `IsRun` for the
migration runner, `IsPass` for the store. Histories are read off the events of a run (`PostsIn`,
`CallsIn`, `Brought`) and proved equal to what the state records.

The recheck of the queue at the end of a flush (line 109 of the ledger script) and the guard at
its start (line 72) never change anything: `RunFindsWork` proves that a scheduled flush always
finds work and never leaves any. The promise in the runner's header (line 33) that a repeat deploy is a
no-op is proved in a strong form: the second run gives the same result for every engine, so it executes nothing.

Integers are unbounded, as in Python; the TypeScript amounts are taken as exact integers. Names
of invoices and keys are strings. `hide` statements only keep definitions out of a proof's way.

`dafny verify dfyconfig.toml` checks the whole project.

## Model

| member | source | states |
|---|---|---|
| `InvoiceSelection.BruteForceIsOptimum` | services/solver/cpsat_solver.py:4-9 | The unpruned enumeration returns the canonical optimum of every problem: least objective over all subsets, first in lexicographic order among equals, None exactly when no subset is feasible. |
| `InvoiceSelection.OptimumUnique` | services/solver/cpsat_solver.py:155-176 | The canonical optimum is unique, so ties resolve deterministically. |
| `InvoiceSelection.DifferenceTakesPriority` | services/solver/cpsat_solver.py:86-87 | With at most 1000 invoices per split the optimum has the least difference of all bounded subsets, and the fewest invoices among those: the weighted objective is lexicographic. |
| `InvoiceSelection.ToleranceStable` | services/solver/cpsat_solver.py:157-176 | An optimum at one tolerance is the optimum at every wider tolerance. |
| `InvoiceSelection.LexFrontier` | services/solver/cpsat_solver.py:170-176 | What precedes c + [i] in preorder: everything before c, c, and the extensions of c continuing below i. |
| `BranchAndBound.VisitNode` | services/solver/cpsat_solver.py:157-165 | Recording a subset only when strictly better moves the frontier past it and keeps the first optimum. |
| `BranchAndBound.PrunedIsInfeasible` | services/solver/cpsat_solver.py:167-173 | Below a full subset, an overshooting subset, or from the first overshooting amount on, no subset is feasible. |
| `BranchAndBound.PruneFrom` | services/solver/cpsat_solver.py:167-173 | Pruning is complete: the frontier may jump past the whole pruned subtree. |
| `BranchAndBound.TreeSizeIsSumOfBinomials` | services/solver/cpsat_solver.py:155-178 | The unpruned search tree over n invoices with at most k chosen has sum of C(n, j), j = 0..k, nodes. |
| `BranchAndBound.Searcher.Evaluate` | services/solver/cpsat_solver.py:157-165 | The shared best fields always describe one selection, and after the visit that selection is the optimum of everything up to the visited subset. |
| `BranchAndBound.Searcher.Search` | services/solver/cpsat_solver.py:155-176 | One recursive call covers its whole subtree, restores the shared list, is entered below the root only with a total within payment plus tolerance, and makes no more calls than the unpruned tree has nodes. |
| `BranchAndBound.Searcher.Descend` | services/solver/cpsat_solver.py:170-176 | One loop iteration (append, recurse, pop) advances the frontier by one position and leaves the list as it was. |
| `BranchAndBound.Searcher.Run` | services/solver/cpsat_solver.py:148-178 | The whole search ends with the canonical optimum recorded, an empty list, and at most sum of C(n, j) calls. |
| `SubsetSums.SelectionPicks` | services/solver/cpsat_solver.py:170-176 | Every selection reaches a (sum, count) pair of the list. |
| `SubsetSums.PickIsSelection` | services/solver/cpsat_solver.py:170-176 | Every reachable pair is reached by a selection. |
| `SubsetSums.MaskPicks` | services/solver/cpsat_solver.py:69-77 | Every assignment of the Boolean variables reaches a pair of the list. |
| `SubsetSums.PickIsMask` | services/solver/cpsat_solver.py:69-77 | Every reachable pair is reached by an assignment. |
| `SubsetSums.PickIgnoresOrder` | services/solver/cpsat_solver.py:153-153 | The reachable pairs depend only on the multiset of amounts. |
| `InvoiceMatcher.SortPermutes` | services/solver/cpsat_solver.py:153-153 | Sorting is a permutation of the invoices. |
| `InvoiceMatcher.SortAscends` | services/solver/cpsat_solver.py:153-153 | The sorted amounts ascend. |
| `InvoiceMatcher.SortIsStable` | services/solver/cpsat_solver.py:153-153 | Invoices of equal amount keep their input order. |
| `InvoiceMatcher.StableSortUnique` | services/solver/cpsat_solver.py:153-153 | Any ascending list with the same invoices of each amount in the same order is this sort's result, so the results hold for every stable sort. |
| `InvoiceMatcher.SolveFallback` | services/solver/cpsat_solver.py:139-217 | The fallback, running the pruned search, returns what exhaustive enumeration prescribes, and that meets a specification of its own (`IsOutcome`): the ids, in sorted order, and total of the canonical optimum with an OPTIMAL solver status and objective difference * 1000 + count; otherwise a FEASIBLE partial payment of the smallest larger invoice if allowed; otherwise no match, INFEASIBLE, no ids, total 0, difference = payment, objective 0. |
| `InvoiceMatcher.PartialScan` | services/solver/cpsat_solver.py:195-217 | The scan offers the first sorted invoice above the payment, exactly if partial payments are allowed and one exists, reported FEASIBLE with objective = difference; otherwise no match, reported INFEASIBLE. |
| `InvoiceMatcher.FallbackMeetsSpec` | services/solver/cpsat_solver.py:153-217 | For all inputs the enumerated result is the one result that `IsOutcome` allows, stated over the canonical optimum and the input order without naming the computation. |
| `InvoiceMatcher.SolveWithoutOrTools` | services/solver/cpsat_solver.py:35-64 | The wrapper's guard, fast-path scan and fallback call compute the wrapper's specification, and with tolerance >= 0 and max_k >= 1 they give the same `IsOutcome` result as the fallback. |
| `InvoiceMatcher.WithoutOrToolsMeetsSpec` | services/solver/cpsat_solver.py:35-64 | The wrapper without OR-Tools, fast path included, gives that same result for every request within bounds. |
| `InvoiceMatcher.SingleIsOptimum` | services/solver/cpsat_solver.py:46-58 | If an amount equals the payment, the optimum is the first such position alone. |
| `InvoiceMatcher.FastPathRefines` | services/solver/cpsat_solver.py:35-64 | Wrapper and fallback return the same result, selected id included, if and only if no invoice equals the payment or tolerance >= 0 and max_k >= 1 (which every accepted request meets). |
| `SolverAgreement.FallbackIsExact` | services/solver/cpsat_solver.py:153-193 | On the unsorted input, the fallback reports a match iff some non-empty subset of at most max_k invoices is within tolerance; its total, difference and objective belong to such a subset and no subset has a smaller objective. |
| `SolverAgreement.FallbackReportsOptimum` | services/solver/cpsat_solver.py:165-193 | Whenever b is the canonical optimum of the sorted invoices, the fallback's ids are exactly those of b in sorted order, with its total. |
| `SolverAgreement.FormulationsAgree` | services/solver/cpsat_solver.py:66-136 | With the tolerance inside the difference variable's domain, any correct OPTIMAL/INFEASIBLE answer to the CP-SAT model gives the fallback's status, difference, objective and count, and the identical result when nothing matches. |
| `SolverAgreement.OrToolsIsSound` | services/solver/cpsat_solver.py:95-136 | With OR-Tools, for any feasible solution (OPTIMAL or FEASIBLE) and after a timeout, the result names distinct invoices that add up to its total, respects the count, reports that total's difference, and carries the status, solver status and objective its numbers call for; a match is within the tolerance. |
| `SolverAgreement.OrToolsMeetsSpec` | services/solver/cpsat_solver.py:46-136 | For every answer of CP-SAT, FEASIBLE and timed out ones included, the wrapper gives the one result the answer calls for: the fallback's on the fast path, else the ids of the set variables in input order, OPTIMAL or FEASIBLE as reported, else a partial payment of the smallest larger invoice if allowed, else no match. |
| `SolverAgreement.OversizedTolerance` | services/solver/cpsat_solver.py:80-84 | A concrete disagreement for every tolerance beyond that domain, with a single invoice of any id, tenant, currency and eligibility. |
| `SolverAgreement.AgreementIffToleranceFits` | services/solver/cpsat_solver.py:80-84 | The two formulations agree on all inputs if and only if tolerance <= max(payment, 1000000). |
| `SolverAgreement.OrderIndependent` | services/solver/cpsat_solver.py:153-217 | Status, solver status, total, difference, objective and count depend only on the multiset of amounts. |
| `SolverAgreement.ToleranceNeverChangesAMatch` | services/solver/cpsat_solver.py:157-193 | A match is returned unchanged, ids included, at every wider tolerance. |
| `SolverAgreement.FallbackNamesInvoices` | services/solver/cpsat_solver.py:165-217 | Every result names invoices of the input, each at most once, that add up to the reported total. |
| `SolverAgreement.PartialPaymentCoherent` | services/solver/cpsat_solver.py:195-207 | A partial payment is offered only when allowed, against the smallest larger invoice, with a remainder strictly above the tolerance. |
| `SolverAgreement.OutcomeCoherent` | services/solver/cpsat_solver.py:181-217 | Every exit reports the difference of its own total; with partial payments allowed, no match means no invoice exceeds the payment. |
| `MatchService.SolveInvoiceMatch` | services/solver/main.py:64-111 | The endpoint's reply meets `IsReply`, a specification in the request's own fields: out of bounds, else refused for the first offending invoice (tenant before currency), else answered with the number of ELIGIBLE invoices as candidate count and the one result that they, taken in request order, call for under the request's payment, tolerance, count and partial-payment flag. |
| `MatchService.AnswerMeetsSpec` | services/solver/main.py:64-111 | The specification function itself meets `IsReply` for every request and every answer of the solver. |
| `MatchService.AcceptedIff` | services/solver/main.py:16-71 | A request is answered iff it is within the declared bounds (amounts, payment, tolerance, count, timeout) and every invoice, eligible or not, has its tenant and currency. |
| `MatchService.AnswerIsSound` | services/solver/main.py:73-105 | With or without OR-Tools, every answer selects distinct ELIGIBLE invoices of the request's tenant and currency that add up to its total, reports that total's difference, stays within the count bound, carries the status, solver status and objective its numbers call for, and matches only within the tolerance. |
| `MatchService.AnswerFollowsRequest` | services/solver/main.py:73-105 | Without OR-Tools, or with a proved answer and the tolerance inside the domain: a match is answered iff some eligible selection settles the request's payment under its tolerance and count, with the least objective; a partial payment needs the request's leave, is the smallest eligible amount above the payment, and has a remainder above the tolerance; no match although partial payments are allowed means that no eligible amount exceeds the payment. |
| `MatchService.OrToolsMakesNoDifference` | services/solver/main.py:64-105 | With the tolerance inside the difference variable's domain and a proved solver answer, installing OR-Tools changes neither acceptance nor status, difference, objective or count. |
| `MatchService.OrToolsMayMatter` | services/solver/main.py:64-105 | Beyond that domain, one eligible invoice of the request's own tenant and currency gets different replies. |
| `MatchService.OrToolsNeverMattersIff` | services/solver/main.py:64-105 | Over all invoices a request may carry, installing OR-Tools never matters if and only if tolerance <= max(payment, 1000000). |
| `CoalescingLedger.ReachableInv` | scripts/benchmark-hotkey-scale.ts:48-112 | After every interleaving: a key is marked iff its queue is non-empty iff exactly one flush is outstanding, and what it resolved followed by what it queues is what was posted to it, in order. |
| `CoalescingLedger.PostKeepsInv` | scripts/benchmark-hotkey-scale.ts:48-68 | A post keeps the invariant. |
| `CoalescingLedger.RunKeepsInv` | scripts/benchmark-hotkey-scale.ts:70-112 | A flush keeps the invariant. |
| `CoalescingLedger.RunFindsWork` | scripts/benchmark-hotkey-scale.ts:71-75 | A scheduled flush always finds updates, resolves exactly those in one batch and leaves none, so the empty guard and the final recheck never act and nothing is rescheduled. |
| `CoalescingLedger.PostsAreTheEvents` | scripts/benchmark-hotkey-scale.ts:48-58 | The recorded history is exactly one entry per post of the run, in order, with that post's key and delta. |
| `CoalescingLedger.FlushesAreRuns` | scripts/benchmark-hotkey-scale.ts:65-75 | Every microtask that runs flushes its own key once; there are no other flushes. |
| `CoalescingLedger.Conservation` | scripts/benchmark-hotkey-scale.ts:96-99 | At every moment of every run, balance plus pending deltas of a key is the sum of the deltas of the run's own posts to it, and its version is one plus the flushes the run made of it. |
| `CoalescingLedger.CountersAreTrue` | scripts/benchmark-hotkey-scale.ts:101-102 | At every moment of every run, batches flushed is the number of microtasks run and the sum of (version - 1) over accounts; committed plus pending updates is the number of posts made. |
| `CoalescingLedger.AccountsOfRun` | scripts/benchmark-hotkey-scale.ts:37-45 | An account exists exactly if it is merchant_primary_pool or has been flushed. |
| `CoalescingLedger.DrainKeepsInv` | scripts/benchmark-hotkey-scale.ts:65-67 | Draining terminates, keeps the invariant, posts nothing, and runs the outstanding flushes in the order they were scheduled, one batch each. |
| `CoalescingLedger.QuiescentIsSerial` | scripts/benchmark-hotkey-scale.ts:104-111 | Without outstanding flushes, in whatever order they ran, all queues are empty, every promise is resolved exactly once and in order per key, and balances equal a one-at-a-time ledger's. |
| `CoalescingLedger.DrainedRun` | scripts/benchmark-hotkey-scale.ts:48-112 | After any run, draining empties every queue, resolves the promise of every post of the run exactly once and in order per key, and leaves every balance at the sum of the deltas posted to it. |
| `CoalescingLedger.OldestIsServedNext` | scripts/benchmark-hotkey-scale.ts:60-68 | No starvation: in every reachable state with a waiting update, the flush at the head of the microtask queue serves the oldest update waiting under any key. |
| `CoalescingLedger.CoalescingCASLedger.PostDelta` | scripts/benchmark-hotkey-scale.ts:48-58 | The post appends one entry with the given key and delta under a fresh promise number to the history and to the key's queue, schedules a flush if none is outstanding, and keeps the invariant. |
| `CoalescingLedger.CoalescingCASLedger.ScheduleFlush` | scripts/benchmark-hotkey-scale.ts:60-68 | Schedules one flush unless the key is marked. |
| `CoalescingLedger.CoalescingCASLedger.FlushKey` | scripts/benchmark-hotkey-scale.ts:70-112 | The method performs the flush step. |
| `CoalescingLedger.CoalescingCASLedger.CommitBatch` | scripts/benchmark-hotkey-scale.ts:77-106 | The whole queue is written as one batch (new balance and version, emptied queue, counters), and then every entry is resolved once, in order. |
| `CoalescingLedger.CoalescingCASLedger.Coalesce` | scripts/benchmark-hotkey-scale.ts:79-82 | The loop computes the sum of the batch. |
| `CoalescingLedger.CoalescingCASLedger.ReleaseKey` | scripts/benchmark-hotkey-scale.ts:108-111 | Clears the mark and schedules again if updates are queued. |
| `CoalescingLedger.CoalescingCASLedger.RunToQuiescence` | scripts/benchmark-hotkey-scale.ts:65-67 | The host's loop terminates and reaches the drained state. |
| `CasStore.ReachableInv` | scripts/benchmark-cas-contention.ts:44-72 | The invariant holds after every interleaving of any calls on any initial records. |
| `CasStore.FramesAreTheCalls` | scripts/benchmark-cas-contention.ts:44-49 | The calls are exactly one per call made in the run, in order, each with the key, mutation and retries it was given. |
| `CasStore.NoLostUpdates` | scripts/benchmark-cas-contention.ts:63-68 | In every reachable state a record is the initial one with the mutations passed in by exactly those calls of the run that succeeded on the key, applied in the order of the versions they returned; the version has grown by their number; the counters count all conflicts and successes. |
| `CasStore.StartIsPass` | scripts/benchmark-cas-contention.ts:50-68 | The first pass of a call gives up, misses its key, conflicts or writes its mutation, as its own arguments and the live record decide. |
| `CasStore.ResumeIsPass` | scripts/benchmark-cas-contention.ts:58-68 | In every reachable state a resumed call makes its second pass with the live version and the arguments it was started with. |
| `CasStore.OnlySuccessWrites` | scripts/benchmark-cas-contention.ts:50-71 | A step changes a record only by making a call on its key succeed with the new version; calls that conflict, give up or miss their key leave every record unchanged. |
| `CasStore.VersionsAreDistinct` | scripts/benchmark-cas-contention.ts:68-68 | Two successful calls on one key return different versions. |
| `CasStore.CommitsWithinTwoAttempts` | scripts/benchmark-cas-contention.ts:50-71 | With maxRetries >= 2 on an existing key a call has committed within two attempts or is in its only back-off, from which it commits in any schedule; it gives up only when maxRetries <= 1. |
| `CasStore.HotKeyConflicts` | scripts/benchmark-cas-contention.ts:54-60 | n calls started from the key's initial version cost exactly n - 1 conflicts in every schedule. |
| `CasStore.HotKeySettles` | scripts/benchmark-cas-contention.ts:86-102 | Once none of them waits, all n have succeeded and the version has grown by n. |
| `CasStore.ConcurrentCASStore.UpdateWithCAS` | scripts/benchmark-cas-contention.ts:44-72 | A call up to its first await or return makes one pass with its own key, mutation, retries and expected version: gives up, misses the key, conflicts, or writes the mutated record under the next version; it keeps the invariant. |
| `CasStore.ConcurrentCASStore.AfterBackoff` | scripts/benchmark-cas-contention.ts:58-60 | After the await the call refreshes its expected version from the live record, loops, and keeps the invariant. |
| `CasStore.ConcurrentCASStore.TryOnce` | scripts/benchmark-cas-contention.ts:50-71 | One pass of the loop: exhausted, key missing, conflict, or commit. |
| `MigrationRunner.ApplyAll` | scripts/init-postgres.ts:186-205 | Applied plus skipped statements equal all statements. |
| `MigrationRunner.ApplyFollowsTrace` | scripts/init-postgres.ts:186-220 | For every engine: a migration is applied exactly if it has statements and none fails, and then commits the last schema reached and one row counting as applied the statements answered with Done. |
| `MigrationRunner.Connection.ApplyMigration` | scripts/init-postgres.ts:174-238 | Succeeds exactly if there are statements and none fails along the sequence of schemas reached; then the committed schema is the last of them, one row is written with the checksum, the number of statements, as applied the number the engine answered with Done, and the rest as skipped, the same counts are returned, and no other row changes. Otherwise the committed database is the prior one. The session is left without transaction or savepoint. |
| `MigrationRunner.Connection.RunStatement` | scripts/init-postgres.ts:187-204 | A failing statement is undone alone and leaves the transaction usable. |
| `MigrationRunner.Connection.RunMigrations` | scripts/init-postgres.ts:343-369 | The loop of main meets `IsRun`: it applies exactly the unrecorded migrations before the point where it stops, one after the other, and it stops at the end (counting them), at the first migration whose checksum differs from its record, or at one that cannot run. |
| `MigrationRunner.RunMeetsSpec` | scripts/init-postgres.ts:346-369 | The run function itself meets `IsRun` for every engine, database and list. |
| `MigrationRunner.RunRecords` | scripts/init-postgres.ts:346-369 | A run never changes a recorded row; when it completes, every migration is recorded with its checksum on disk. |
| `MigrationRunner.RepeatedRunIsNoop` | scripts/init-postgres.ts:349-352 | After a completed run, a run over the same files changes nothing whatever the engine would answer. |
| `MigrationRunner.EditBlocksTheRun` | scripts/init-postgres.ts:354-361 | An edited migration ends the run where the run over its predecessors ends; nothing after it is applied and no recorded row changes. |
| `MigrationRunner.CreateStatementsHeal` | scripts/init-postgres.ts:167-173 | For create-object statements the result from any partial start is the prior objects united with the declared ones, and exactly the missing objects count as applied. |
| `MigrationRunner.CreateMigrationRow` | scripts/init-postgres.ts:186-220 | For create-object statements the row's applied count is the number of objects added and its skipped count the rest. |
| `MigrationProtocol.ReachableInv` | scripts/init-postgres.ts:249-266 | The protocol invariant holds after every interleaving and crash, whatever lists the runners bring. |
| `MigrationProtocol.RunnersAreTheJoins` | scripts/init-postgres.ts:301-346 | At every moment the runners are exactly those that joined, each with the list it brought. |
| `MigrationProtocol.CommitIsApply` | scripts/init-postgres.ts:207-220 | A commit installs exactly the migration applied to the currently committed database, under an unrecorded name. |
| `MigrationProtocol.MutualExclusion` | scripts/init-postgres.ts:337-340 | At most one runner is between lock and unlock, and the lock is never left with a finished or crashed one. |
| `MigrationProtocol.CommittedAtMostOnce` | scripts/init-postgres.ts:207-219 | Each name commits at most once, never when recorded before; the ON CONFLICT arm never fires; no recorded row changes. |
| `MigrationProtocol.LockedSectionIsOneRun` | scripts/init-postgres.ts:337-376 | However its statements interleave with other runners and crashes, a runner's locked section turns the database it read into exactly what one uninterrupted run over the list it brought computes, with the same outcome. |
| `MigrationProtocol.SuccessMeansRecorded` | scripts/init-postgres.ts:346-376 | A runner that reports success leaves all the migrations it brought recorded as on disk, for good. |
| `MigrationProtocol.OneWayForward` | scripts/init-postgres.ts:337-376 | A runner has at most one way to go on, so running alone is deterministic. |
| `MigrationProtocol.AbandonedLeavesNoTrace` | scripts/init-postgres.ts:259-263 | A runner that times out or crashes at any point leaves the committed database and the other runners as they were, keeps no lock and makes no further step. |
| `MigrationProtocol.AloneItFinishes` | scripts/init-postgres.ts:249-266 | Progress: from every reachable world with a free lock, a polling runner that runs alone takes the lock, frees it again and finishes with the database and the success that the uninterrupted run over its list computes. |
| `MigrationProtocol.ConcurrentRunsAreSequential` | scripts/init-postgres.ts:337-376 | From a database that records some first part of a list (none of it when fresh), with runners that bring prefixes of the list, the committed database is at every moment what one undisturbed runner reaches by applying the next migrations of the list; the names committed are theirs, in order. |
| `MigrationProtocol.SuccessMeansWholeList` | scripts/init-postgres.ts:337-376 | Once a runner has succeeded, its whole list is committed; if it brought the whole list, the database is what one undisturbed runner reaches by applying everything that was missing. |
| `LehmerGenerator.StepIsBijective` | scripts/fuzz-invariants.ts:19-22 | The step is a bijection on the residues with inverse multiplier 1407677000. |
| `LehmerGenerator.DrawsStayInCycle` | scripts/fuzz-invariants.ts:19-22 | From [1, 2147483646] every draw stays there and its product is below 2^53. |
| `LehmerGenerator.SeededIsResidue` | scripts/fuzz-invariants.ts:15-18 | The constructor keeps a seed of the cycle, reduces other non-negative seeds modulo 2147483647 with 0 becoming 2147483646, and counts a negative seed's remainder down from 2147483646. |
| `LehmerGenerator.ScaledIsShare` | scripts/fuzz-invariants.ts:23-25 | nextInt returns k exactly when (k - min) * 2147483646 <= (state - 1) * (max - min + 1) < (k - min + 1) * 2147483646. |
| `LehmerGenerator.NextIntInRangeIff` | scripts/fuzz-invariants.ts:15-25 | On every draw nextInt lies in [min, max], unless the seed is negative and congruent to -2147483646, in which case no draw does; no non-negative seed is of that family. |
| `LehmerGenerator.BadSeedDraws` | scripts/fuzz-invariants.ts:15-25 | The seed -2147483646 is of that family: its state is 0 and nextInt(1, 10) returns 0 on every draw. |
| `LehmerGenerator.DeterministicPRNG.NextInt` | scripts/fuzz-invariants.ts:23-25 | The draw advances the state once by 16807 modulo 2147483647, returns the share of the range that the new state falls into, and is in range exactly from the states of the cycle. |

## Left out

- The OR-Tools solver itself and its 64-bit domains: the CP-SAT model is the declared constraint set, and the solver's answer is a parameter, assumed feasible, least if reported OPTIMAL, and absent if reported INFEASIBLE. Agreement is stated for OPTIMAL and INFEASIBLE only, since a timeout may miss a match.
- FormulationsAgree: the selected ids and total may differ between two optima of the same objective, so only status, difference, objective and count are compared when something matches.
- DifferenceTakesPriority: the bound of 1000 invoices is the objective's weight; the service admits at most 20.
- Durations, hashes, timestamps, solve ids and the fixed texts of the service's response.
- Python's `str.upper`: a function parameter of the service model.
- The TypeScript engine in `src/lib/solver`, which runs the same search over at most 50 candidates with a deadline.
- Back-off lengths, jitter and lock-wait deadlines: arbitrary scheduling choices in the models.
- `CoalescingLedger`: the unused `unsettledDeltaPaise` field and the commit timestamps; resolving a promise is recorded, its awaiting code is any later post.
- `CasStore`: mutations are pure functions of the record, and records are never replaced from outside, so the record read after the `await` is the stored one.
- `MigrationRunner`: migration statements act on the schema and not on the bookkeeping table; SQL splitting, error classification and checksums are inputs. Loss of the connection is modelled as a crash in `MigrationProtocol`.
- Migration discovery, TLS, connection handling, logging and the schema verification gate that runs while the lock is still held.
- Floating point in the generator: `next` and `nextInt` are over exact rationals.
- The React pages, the remaining scripts and the rest of `src/lib`.
