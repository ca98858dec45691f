# Verified model of the path-selection measurement campaign

The repository runs controlled network experiments: a frozen schedule of cells is executed by a campaign,
each cell drives a switching policy over measured paths, every run leaves a sealed evidence bundle, and an
analysis turns the bundles into paired contrasts. This project models the parts where those steps depend on
each other over whole runs, and proves in Dafny 4.11 what they keep.

| files | what they model |
|---|---|
| `FileSystem.dfy`, `Freeze.dfy`, `FreezeDisk.dfy` | the two-file freeze of a schedule, with faults, crashes and power loss at every step |
| `Attempts.dfy`, `RawInventory.dfy`, `Campaign.dfy`, `Workflow.dfy`, `Analysis.dfy` | attempt chains: the three validators, allocation, concurrent campaigns, terminal selection, and what the analysis loads |
| `Policy.dfy`, `PolicyRun.dfy`, `PolicyHistory.dfy`, `Executor.dfy` | scoring, the two switching policies, their runs, every decision as a function of the history alone, and the windowed executor that drives them |
| `Codec.dfy`, `Ledger.dfy`, `Probe.dfy`, `Metrics.dfy` | the probe datagram, the correlation table under two threads, one exchange, and both packet summaries |
| `Publish.dfy`, `Bundle.dfy`, `Inventory.dfy`, `RunScript.dfy`, `Runner.dfy` | no-replace publication with rollback, the bundle life cycle, `SHA256SUMS`, and one run under faults |
| `Holm.dfy`, `Pairing.dfy`, `Differences.dfy`, `Blocks.dfy`, `Contrast.dfy`, `Schedule.dfy` | the pre-specified statistics and the randomised complete block design |
| `Common.dfy`, `Sorting.dfy`, `Strings.dfy`, `Sums.dfy` | results, stable sorting, text order and joining, grouped totals |

How things are represented:

- A raised exception is an `Err`, a `Some(error)` or, where the kind matters, `Ordinary` (an `Exception`) or
  `Interrupt` (what `except Exception` does not catch). Calls that leave the program may fail at any time; in
  publication, finalising and a whole run they are numbered, and an arbitrary plan says which fail and how.
- Floats are `real`, clocks are natural nanoseconds or real seconds, and dictionaries are iterated in an
  arbitrary order. Integer widths are explicit where the code checks them.
- SHA-256 and UUIDv5 are injective symbols. Random draws are an arbitrary stream. The receiver thread of a
  probe runs for an arbitrary while between any two steps of the sender.
- A directory is its durable entries and its pending updates. A crash keeps any subset of the pending updates
  of each directory; a rename within a directory is one update. Contents are safe once the file was synced.

Where the code and its own words part, the model follows the code:

- `min_switch_interval_s` is enforced only up to 3600 s, because the queue it is checked against is pruned at
  3600 s (`src/adaptive_vpn/policy.py:96-107`). `PolicyRun.PrunedGuardIsFullGuard` says exactly when this shows.
- Rerunning a single freeze after a process died between the rename and the directory sync returns without
  syncing the plan's directory (`scripts/freeze_schedules.py:1033-1056`), so the switch may still be lost to a
  power failure. `FreezeDisk.Disk.Freeze` states when; the sync at the start of `freeze_all` closes the gap.
- The probe and the analysis may compute different jitters when packets share a send time, and when nothing was
  received the probe reports 0 while the analysis reports none (`analysis/statistical_analysis.py:566-580`).
- A run leaves its server running exactly when an interrupt was raised by a call made after the start returned and
  before a stop was tried (`src/adaptive_vpn/runner.py:654-694`): `RunScript.Abandons`, which
  `Runner.ExperimentRun.Run` meets in both directions. `Runner.InterruptLeavesServerRunning` is one such run.
- A publication that is rolled back on any other failure is left standing when closing a directory handle fails
  after the last verification (`src/adaptive_vpn/collector.py:673-675`). `finalise` then reports a quarantined
  bundle and the run an error, though the bundle is published: `Publish.Strands` is the exact condition, carried
  through `Bundle.EvidenceBundle.Finalise` to `Runner.ExperimentRun.Run`.
- Scoring weights may add up to 1 + 1e-9, and then a score above 1 makes the switch request raise
  (`src/adaptive_vpn/models.py:67`, `src/adaptive_vpn/models.py:173-177`).
- An attempt is verified by its own bundle alone, so a second entry a runner leaves beside it goes unnoticed until
  the next inventory (`src/adaptive_vpn/workflow.py:589-623`).
- The campaign skips bundles of an older schema whatever their dataset (`src/adaptive_vpn/attempts.py:559-560`); the
  analysis refuses them when they claim the campaign's dataset (`analysis/statistical_analysis.py:1273-1280`), and it
  refuses more than 20,000 directories, which the last attempt may bring about after the campaign counted. So a
  complete report does not always mean that the analysis accepts: `Analysis.RunAndSelect` says exactly when it does,
  and `Analysis.FailingRoot` is a root of two entries where it does not.
- Pairing over a valid matrix can still fail for a run without a finite metric
  (`analysis/statistical_analysis.py:227-233`).

## Model

| member | source | states |
|---|---|---|
| Freeze.DiskAtRestIsGood | scripts/freeze_schedules.py:885-920 | A disk with nothing pending, an old plan and anything else on it satisfies the freeze invariant, so the results below start from any such disk. |
| Freeze.GoodIsLoadable | scripts/freeze_schedules.py:538-666 | At every state satisfying the invariant, and after a power loss keeping any subset of the unsynced directory updates, a plan that started loadable names an existing schedule with its registered digest. |
| Freeze.PowerLossKeepsGood | scripts/freeze_schedules.py:807-848 | A power loss that drops any unsynced updates and garbles any unsynced contents leaves a state the freeze can be rerun from. |
| Freeze.TempUpdateKeepsGood | scripts/freeze_schedules.py:538-593 | Creating, writing or removing either temporary file never disturbs the plan, the schedule or any other entry, in any survivor. |
| Freeze.LinkKeepsGood | scripts/freeze_schedules.py:634-641 | Linking the synced schedule under an absent name keeps the invariant in every survivor, whether or not the link reaches the disk. |
| Freeze.ReplaceKeepsGood | scripts/freeze_schedules.py:819-831 | Write-ahead order: the plan may be renamed over only when the schedule is under its name in every survivor; then every survivor is still loadable. |
| Freeze.SyncKeepsGood | scripts/freeze_schedules.py:551-552 | Syncing a directory keeps the invariant. |
| Freeze.NamesAreDistinct | scripts/freeze_schedules.py:815-858 | For every stem and digest the plan, its temp, the schedule and its temp have four distinct names, even in one directory. |
| Freeze.NameHoldsDigest | scripts/freeze_schedules.py:851-858 | The digest can be read off the name of a schedule, so schedules of different content never share a name. |
| FreezeDisk.Disk.StageTemp | scripts/freeze_schedules.py:538-579 | Staging replaces any stale temp by a synced file with exactly the given content, touching no other entry; it fails only on a fault. |
| FreezeDisk.Disk.RemoveStagedTemp | scripts/freeze_schedules.py:582-593 | Only the very file that was staged is removed, and the directory is then settled. |
| FreezeDisk.Disk.VerifyExact | scripts/freeze_schedules.py:596-611 | A success means the file is there with exactly these bytes, and without faults that is when it succeeds; a missing file is told apart. |
| FreezeDisk.Disk.PublishImmutable | scripts/freeze_schedules.py:614-666 | Returns only with the schedule under its content-addressed name in every survivor and its temp gone; with no fault it fails exactly when another content stands there. |
| FreezeDisk.Disk.Commit | scripts/freeze_schedules.py:818-838 | Renames the staged plan only if plan and schedule still read as before, and reports success only with the switch settled. |
| FreezeDisk.Disk.ReplacePlan | scripts/freeze_schedules.py:807-848 | Either the switch is settled and the temp gone, or an error is reported with the disk still in a good state; without faults it succeeds. |
| FreezeDisk.OnlyRegistrationChanges | scripts/freeze_schedules.py:789-804 | In every state of a freeze and every survivor of it the plan is the old one, or its two registration fields name the new schedule and its digest and the rest of it is as it was. |
| FreezeDisk.Disk.Freeze | scripts/freeze_schedules.py:987-1059 | Every step boundary is good, every entry but the plan, the schedule and their temps being as it was; on return the plan is at its target with only the two registration fields changed, in every survivor where it is durable, the schedule is durable and no temp is left; the switch itself is durable if and only if this run made it, the schedule shares the directory, or it was durable before. |
| FreezeDisk.Disk.FreezeAll | scripts/freeze_schedules.py:1100-1117 | With the registration directory synced first and the plan built from the file as it then reads, a return means the plan, the schedule and the absence of temps are all durable, and in every survivor the plan names the schedule and its digest and is otherwise as before; without faults it returns exactly if nothing but the schedule stands under its name, so the transition check never fails. |
| FreezeDisk.RecoverAfterCrashes | scripts/freeze_schedules.py:885-975 | After any number of runs that fail or crash anywhere, with or without power loss, one fault-free run ends at the target with everything durable and the rest of the plan unchanged, exactly when nothing but the schedule itself stood under its name at the start. |
| FreezeDisk.SwitchCanBeLost | scripts/freeze_schedules.py:824-831 | Right after the rename the switch is visible and yet some survivor has lost it. |
| Attempts.ValidatePredecessorScope | src/adaptive_vpn/attempts.py:413-428 | Accepts exactly the inventories whose supersedes links stay inside their scope group. |
| Attempts.ValidateReservationGroup | src/adaptive_vpn/attempts.py:431-443 | Accepts a group exactly when its sorted numbers run 1..k and nothing follows a complete attempt. |
| Attempts.ValidateGlobalPredecessors | src/adaptive_vpn/attempts.py:387-410 | Accepts exactly the inventories in which attempt N supersedes an attempt N-1 of its own group and attempt 1 supersedes nothing. |
| Attempts.PassesIffChains | src/adaptive_vpn/attempts.py:574-608 | The three global passes succeed if and only if every scope group is one chain in some order: numbers 1..k, each link to the attempt before, only the last possibly complete. |
| Attempts.EveryAttemptReachesTheFirst | src/adaptive_vpn/attempts.py:387-443 | In an accepted inventory every attempt reaches attempt 1 of its own group in number-1 steps, so links are acyclic. |
| Attempts.NoForks | src/adaptive_vpn/attempts.py:387-443 | No attempt is superseded twice, and a superseded attempt is incomplete. |
| Attempts.ValidateAttemptChain | src/adaptive_vpn/attempts.py:482-506 | Accepts records in any order exactly when they are within budget and sort to a chain, and returns that chain. |
| Attempts.OnlyBudgetRemains | src/adaptive_vpn/attempts.py:482-506 | After the global passes the per-cell validator can reject a group only for its budget. |
| Attempts.OrderedRecoversChain | src/adaptive_vpn/attempts.py:489-506 | Sorting any listing of a chain by number gives back the chain. |
| RawInventory.InventoryAttempts | src/adaptive_vpn/attempts.py:509-618 | Accepts a raw root exactly when it is under the entry cap, all identities match the registered scope, every group is a chain and every cell is within budget; the result lists each cell's chain. |
| RawInventory.EntriesAreProper | src/adaptive_vpn/attempts.py:509-618 | The entry and identity checks let stand exactly real directories with valid evidence whose attempts are named by their id and, in the dataset, agree with the scope in stage, schedule, configuration, commit, seed and the whole registered cell. |
| RawInventory.GlobalPasses | src/adaptive_vpn/attempts.py:574-580 | The grouping loop and both predecessor passes together decide the chain property. |
| RawInventory.ValidateCells | src/adaptive_vpn/attempts.py:606-618 | Returns for each registered cell with attempts its chain, and fails exactly for a budget. |
| RawInventory.AllocationIsNext | src/adaptive_vpn/attempts.py:621-661 | Allocation succeeds exactly for an open registered cell with budget left and an unused id, and then gives that id, and the number and predecessor that extend the chain. |
| RawInventory.ExtendChain | src/adaptive_vpn/attempts.py:640-661 | Appending the allocated attempt to an open chain gives a chain. |
| Campaign.EmptyRootStarts | src/adaptive_vpn/workflow.py:508-524 | An empty root with idle processes is sound and satisfies the invariant, so every campaign has a start. |
| Campaign.PublishKeepsSound | src/adaptive_vpn/workflow.py:691-766 | Publishing the allocated attempt, complete or not, keeps the root sound for its own scope and for every other dataset. |
| Campaign.MutualExclusion | src/adaptive_vpn/workflow.py:448-505 | From idle processes over any readable root, no interleaving of steps, failures and crashes ever has two processes inside the campaign loop at once. |
| Campaign.EveryRunKeepsSound | src/adaptive_vpn/workflow.py:448-524 | From a sound root every interleaving of processes that lock, inventory, allocate, publish, leave residue, fail, crash and unlock keeps it sound, changes nothing published, and leaves it acceptable exactly while it is under the entry cap. |
| Campaign.ChainsGrow | src/adaptive_vpn/attempts.py:606-618 | A cell's earlier chain is a prefix of its later one. |
| Campaign.CompleteIsFinal | src/adaptive_vpn/attempts.py:621-639 | Once a cell's chain ends complete no later run adds to it. |
| Workflow.EvidenceRoot.VerifyAttemptOutcome | src/adaptive_vpn/workflow.py:589-623 | Holds exactly when a directory published under the allocated id holds an attempt that has, field by field, the allocated scope, cell, number and predecessor, the registered design and seed, and the claimed status. |
| Workflow.EvidenceRoot.AttemptCell | src/adaptive_vpn/workflow.py:721-758 | Whatever the runner adds, everything published before is kept, and each error means what it says: a refused allocation, the runner's own failure, or a claim the root does not bear out. A verified complete attempt of the cell is in the root, and with a runner that adds at most one entry the root stays sound. |
| Workflow.EvidenceRoot.ProcessCell | src/adaptive_vpn/workflow.py:691-758 | A turn is refused for its inventory exactly when the root is not accepted, and for want of `resume` exactly when the root is accepted, `resume` is off and some attempt of the cell was published; it is skipped exactly when the cell was complete and `resume` is on; every other error comes from allocation, the runner or the outcome check. |
| Workflow.CellCompleteIff | src/adaptive_vpn/attempts.py:446-506 | In a root the inventory accepts, a cell's chain ends complete exactly when some complete attempt of it was published. |
| Workflow.EvidenceRoot.ExecuteRegisteredPlan | src/adaptive_vpn/workflow.py:691-766 | For any runner that changes nothing published, whatever it adds or claims: the run is the turns of its cells in order up to the first that stops it, each judged as above by the root it then finds, and an error is that turn's. A complete report means the counts add up and, if the root still inventories, every selected cell ends in a complete attempt; without `resume` it also means that no selected cell had an attempt before. For a runner that adds at most one entry per attempt the root does still inventory. |
| Workflow.SecondBundleIsNotNoticed | src/adaptive_vpn/workflow.py:589-623 | A runner that adds a second, broken entry beside the allocated bundle leaves a root on which the outcome is verified but which no inventory accepts. |
| Workflow.SelectTerminalAttempts | analysis/statistical_analysis.py:1013-1082 | Accepts exactly bundles of one registered scope, under a schema 2 schedule, whose cells all end in a complete attempt within budget, and returns one bundle per cell: its last and only complete attempt. |
| Workflow.CheckTerminalLinks | analysis/statistical_analysis.py:1062-1076 | The predecessor and complete-seen loop accepts exactly linked chains with only the last possibly complete. |
| Workflow.CompletedCampaignIsSelectable | analysis/statistical_analysis.py:1304-1312 | When the campaign completed every registered cell, selection accepts its bundles in any order and covers exactly the registered cells. |
| Analysis.LoadEvidence | analysis/statistical_analysis.py:1178-1303 | Loads exactly when the directories are within the cap, all valid, those of the dataset all registered, and either all attempts or all complete runs of an older schema; and then loads just those. |
| Analysis.LoadableByDirectory | analysis/statistical_analysis.py:1178-1303 | What can be loaded, and what of the dataset there is to load, said of each directory by the fields of its manifest. |
| Analysis.LoadDataset | analysis/statistical_analysis.py:1157-1312 | Attempts are returned exactly when loading reaches selection, selection accepts them, and they cover the registered cells and no others; they are the selection from the attempts found. |
| Analysis.CompletedCampaignLoads | analysis/statistical_analysis.py:1269-1312 | What a completed campaign leaves reaches selection if and only if it is within the cap and no older bundle claims the dataset, and then it is selectable for exactly the registered cells. |
| Analysis.RunAndSelect | src/adaptive_vpn/workflow.py:691-766 | From the campaign to the analysis, for any runner: after a complete report over the whole schedule and a root that still inventories, the analysis succeeds if and only if the root is within the cap and no older bundle claims the dataset, and then picks exactly one attempt for each registered cell, its last and only complete one. |
| Analysis.OtherSchemaIsNotNoticed | src/adaptive_vpn/attempts.py:559-560 | Adding a bundle of an older schema with the same dataset to any completed campaign's root keeps it accepted and complete, and the analysis no longer reaches selection. |
| Analysis.FailingRoot | analysis/statistical_analysis.py:1273-1280 | A root of two entries that the inventory accepts and the campaign calls complete, and the analysis cannot load. |
| Workflow.ChainErrors | src/adaptive_vpn/workflow.py:220-276 | The dataset validator reports no error for a cell exactly when its attempts sort to a chain within budget, no two of them differ in stage, schedule, configuration, seed or design, and they end complete if that is required. |
| Policy.ScoreIsBounded | src/adaptive_vpn/policy.py:36-50 | Every score lies between 0 and the total of the weights, which the configuration lets differ from 1 by 1e-9. |
| Policy.ScoreByShortfalls | src/adaptive_vpn/policy.py:40-50 | An ineligible path scores 0. For an eligible one the score and the shortfalls of the three measures, each its weight times value over threshold but at most its weight, add up to the total of the weights. |
| Policy.WorseNeverScoresHigher | src/adaptive_vpn/policy.py:36-50 | A path that is nowhere better in round-trip time, jitter and loss, and eligible only if the other is, never scores higher. |
| Policy.ScoreOfOneMeasure | src/adaptive_vpn/policy.py:40-50 | With two of the measures 0 the score is the total less the third measure's own weight times the lesser of 1 and value over threshold, for each of the three. |
| Policy.CloseMeansWithin | src/adaptive_vpn/models.py:56-68 | The sums of weights accepted as 1 are those from 1 - 1e-9 to 1 / (1 - 1e-9). |
| Policy.BestAlternativeIsBest | src/adaptive_vpn/policy.py:82-94 | The alternative chosen is eligible, not the active path, and no other candidate has a higher score or the same score and an earlier name. |
| Policy.BestIsUnique | src/adaptive_vpn/policy.py:82-94 | There is only one such alternative, so the order of observations does not matter. |
| Policy.SwitchingPolicy.RecordCompletedSwitch | src/adaptive_vpn/policy.py:74-80 | Raises exactly for a negative time or one before the last switch; otherwise appends it and clears the hold timer. |
| Policy.SwitchingPolicy.SwitchGuard | src/adaptive_vpn/policy.py:96-107 | Prunes switches an hour old and answers the guard of the pruned queue. |
| Policy.SwitchingPolicy.DecideAdaptive | src/adaptive_vpn/policy.py:121-151 | The adaptive decision and the timer and queue it leaves, for every snapshot. |
| Policy.SwitchingPolicy.DecideThreshold | src/adaptive_vpn/policy.py:157-191 | The threshold decision and the timer and queue it leaves, for every snapshot. |
| PolicyRun.PrunedGuardIsFullGuard | src/adaptive_vpn/policy.py:96-107 | In every run the pruned queue answers as the full history would, if and only if it is not the case that the last switch is over an hour old while the configured interval has not passed. |
| PolicyRun.PruningCanHideInterval | src/adaptive_vpn/policy.py:96-107 | A run with a configured interval of two hours that switches at 0 s and again at 4000 s, where the full history would have answered that the interval has not passed. |
| PolicyRun.RecordNeverRaises | src/adaptive_vpn/runner.py:965-977 | Reporting a granted switch at its decision time never raises. |
| PolicyRun.SwitchesAreLimited | src/adaptive_vpn/policy.py:74-107 | In every run any window of 3600 s holds at most max_switches_per_hour switches, and consecutive ones are at least min(min_switch_interval_s, 3600) apart. |
| PolicyRun.SwitchIsJustified | src/adaptive_vpn/policy.py:109-151 | A switch at t implies a decision at or before t minus the hold from which every decision saw the same active path degraded, with no recovery or completed switch between. |
| PolicyRun.SwitchDestination | src/adaptive_vpn/policy.py:121-191 | The destination differs from the active path, is the unique best eligible alternative, and beats the active score by the margin (adaptive) or strictly (threshold). |
| PolicyHistory.DecisionOfHistory | src/adaptive_vpn/policy.py:74-191 | Every decision of every run is the one that the observations and the switches granted so far call for, in the source's order of reasons: how long each decision saw the active path unfit, whether an alternative is better, how many switches the last hour had, and how long ago the last was; neither the hold timer nor the pruned queue is mentioned. |
| PolicyRun.OnlyOverweightRaises | src/adaptive_vpn/models.py:161-178 | A decision that would switch raises instead if and only if the best score exceeds 1, which takes weights that add up to more than 1. |
| PolicyRun.OverweightCanRaise | src/adaptive_vpn/models.py:56-68 | Accepted weights and a first decision that raises. |
| Executor.SlotIsProduct | src/adaptive_vpn/runner.py:764-766 | The running stream number is window times streams plus stream. |
| Executor.TokenIsSum | src/adaptive_vpn/runner.py:764-766 | The token of a stream is the run's token plus window times streams plus stream plus 1, modulo 2 to the 64. |
| Executor.TokensAreDistinct | src/adaptive_vpn/runner.py:764-766 | No two probe streams of a run share a token while windows times streams fits in 64 bits. |
| Executor.IntervalIsNearest | src/adaptive_vpn/probe.py:153 | Packets are paced at the whole number of nanoseconds nearest to 1e9 over the rate, the even one of two. |
| Executor.WindowedExecutor.Observations | src/adaptive_vpn/runner.py:768-795 | One valid observation per endpoint in order: the measured loss, and the mean round-trip time and jitter if anything was received; otherwise failed, with the whole window as its round-trip time and no jitter. |
| Executor.WindowedExecutor.EmitRows | src/adaptive_vpn/runner.py:914-936 | The rows of a window continue the sequence numbers, hold the probe's rows in order, and are attributed to the path in use. |
| Executor.WindowedExecutor.SendWindow | src/adaptive_vpn/runner.py:864-936 | Every path is probed on its own endpoint as often, as fast and as large as configured, the workload goes over the endpoint of the path its rows are recorded on, paced and of its own size; each stream takes the next token, and no datagram of any of them was a stray or a repeat. |
| Executor.WindowedExecutor.DecideAndRecord | src/adaptive_vpn/runner.py:956-977 | A granted switch is recorded at its decision time, recording never fails, and the policy's run grows by one window; an error is exactly a request refused for its score, and then the weights add up to more than 1. |
| Executor.WindowedExecutor.RunWindowed | src/adaptive_vpn/runner.py:847-995 | A phase takes the fewest windows that cover its duration, at least one; each sends the number of packets nearest to its length times the rate, at least one, after everything sent before it and each packet no earlier than its turn at that rate, and is reported once, numbered from 1. The rows are numbered on from the offset, each sent over the path of the last switch effective at or before it; every switch leaves the path in use, and the next number is reported. An unknown path and a duration or rate that is not positive are refused. |
| Executor.WriteNumbered | src/adaptive_vpn/collector.py:1888-1896 | Rows numbered on from those written never trip the duplicate check. |
| Executor.TableIsAcceptable | analysis/statistical_analysis.py:503-565 | A table of rows numbered from 0 that come from probe runs meets every demand of the analysis reader. |
| Executor.CollectPhases | src/adaptive_vpn/runner.py:605-636 | Over all phases the rows are as many as the windows of the phases call for, numbered 0..N-1 with N the reported count, sent at non-decreasing times, each over the endpoint of the path of the last switch at or before it; no two probe streams share a token while the token space lasts; the writer never rejects a row, the analysis accepts the recorded table, the decisions form one policy run, and the policy raises only for weights that add up to more than 1. |
| Holm.HolmAdjusted | analysis/statistical_analysis.py:1650-1663 | Rejects exactly families with a value outside [0, 1]; otherwise adj[i] is the maximum over all index sets S containing i of min(1, size of S times the least p in S). |
| Holm.StepDownIsClosedTest | analysis/statistical_analysis.py:1656-1662 | The running maximum at each rank is the closed-testing p-value of that hypothesis, whatever the order among ties. |
| Holm.WriteBack | analysis/statistical_analysis.py:1656-1663 | Writing the running maximum through the sort permutation puts each value at its own index. |
| Holm.AdjustedDecidesRejection | analysis/statistical_analysis.py:1650-1663 | For alpha below 1, adj[i] <= alpha exactly when the step-down procedure rejects i. |
| Holm.AdjustmentIsEquivariant | analysis/statistical_analysis.py:1650-1663 | Relabelling the family relabels the adjusted values. |
| Codec.DecodeEncode | src/adaptive_vpn/protocol.py:45-71 | Every valid packet, for all 64-bit header values and payloads, decodes from its own encoding. |
| Codec.EncodeDecode | src/adaptive_vpn/protocol.py:58-71 | Every accepted byte string is the encoding of the packet it decodes to. |
| Codec.AcceptsExactlyEncodings | src/adaptive_vpn/protocol.py:58-71 | The decoder accepts exactly the encodings of valid packets. |
| Codec.WireFormat | src/adaptive_vpn/protocol.py:15-56 | Byte by byte: magic, version and flags, then path, token, sequence and send time with the high byte first, and the payload from byte 32 on. |
| Codec.NumberRoundTrip | src/adaptive_vpn/protocol.py:15-16 | A number that fits survives its big-endian bytes. |
| Codec.BytesRoundTrip | src/adaptive_vpn/protocol.py:15-16 | Any bytes are the big-endian form of the number they read as. |
| Ledger.PacketLedger.RecordSend | src/adaptive_vpn/protocol.py:122-130 | Adds a pending entry exactly for an in-range, header-sized, unsent sequence; otherwise raises and changes nothing. |
| Ledger.PacketLedger.RecordEcho | src/adaptive_vpn/protocol.py:132-146 | Changes the table as specified, and is true exactly for the first answer to a packet. |
| Ledger.PacketLedger.Finalize | src/adaptive_vpn/protocol.py:148-158 | Times out exactly the unanswered entries that are old enough. |
| Ledger.PacketLedger.Rows | src/adaptive_vpn/protocol.py:160-184 | One row per entry in ascending sequence with the entry's own times, status and round-trip time. |
| Ledger.SendIsRecorded | src/adaptive_vpn/protocol.py:122-130 | A packet is recorded pending, as it was sent, exactly if it is new, in range and has a whole header; nothing else changes. |
| Ledger.EchoIsJudged | src/adaptive_vpn/protocol.py:132-146 | What one echo changes: nothing if its time is out of range; otherwise one attribution error if it answers no packet of the table, one duplicate if its packet was answered or given up, and else that packet's receive time and nothing more. |
| Ledger.FinalizeGivesUp | src/adaptive_vpn/protocol.py:148-158 | Finalising marks exactly the unanswered packets as old as the timeout and changes nothing else. |
| Ledger.RowSays | src/adaptive_vpn/protocol.py:160-184 | A row says of its entry what was sent and when, whether it was answered or timed out, and the round-trip time in milliseconds. |
| Ledger.EchoesAreAccounted | src/adaptive_vpn/protocol.py:132-146 | Over any interleaving of sends, echoes and finalisations, in-range echoes equal received plus duplicates plus attribution errors added. |
| Ledger.EntriesSettleOnce | src/adaptive_vpn/protocol.py:132-158 | An entry keeps what was sent, leaves pending at most once and never changes after. |
| Ledger.RunsStaySane | src/adaptive_vpn/protocol.py:122-158 | Over any interleaving no answer precedes its packet, no entry is both answered and timed out, and none is shorter than a header. |
| Ledger.FinalizeSettles | src/adaptive_vpn/protocol.py:148-158 | Finalising leaves nothing pending if and only if every unanswered packet has had its timeout. |
| Ledger.SettledCounts | src/adaptive_vpn/protocol.py:217-235 | Sent is received plus timed out once nothing is pending. |
| Probe.Exchange.HandleDatagram | src/adaptive_vpn/probe.py:105-128 | Whatever arrives is counted exactly once, as a first answer, a repeated one or a stray, or fails the receiver, and never changes what was sent. |
| Probe.Exchange.SendAll | src/adaptive_vpn/probe.py:157-177 | Sends sequences 0..n-1, none before its turn and all of the size asked for, with the receiver running between any two steps and not failed. |
| Probe.Exchange.Await | src/adaptive_vpn/probe.py:179-182 | Ends with every packet answered or past its timeout, or with the receiver's failure. |
| Probe.Exchange.Converse | src/adaptive_vpn/probe.py:157-187 | After a fault-free exchange every packet is answered or past its timeout, and if all were answered late duplicates were waited for as long as configured. |
| Probe.Exchange.Settle | src/adaptive_vpn/probe.py:248-251 | Finalising after the wait leaves no entry pending. |
| Probe.RunPackets | src/adaptive_vpn/probe.py:76-258 | A returned run has rows 0..n-1 in order, on the path asked for, of the size asked for, each sent no earlier than its turn and before the end, none pending; its metrics have sent = n, and its received, duplicate and attribution counts are those of the datagrams taken for first answers, repeats and strays. It is read off only after the receiver was stopped without a failure. |
| Metrics.QuantileMonotone | src/adaptive_vpn/protocol.py:198-207 | The interpolated quantile is monotone in the probability. |
| Metrics.QuantileInRange | src/adaptive_vpn/protocol.py:198-207 | It lies between the least and greatest values and reaches them at 0 and 1. |
| Metrics.QuantileAtHalfIsMedian | src/adaptive_vpn/protocol.py:198-207 | At one half it is the median, for odd and even counts. |
| Metrics.QuantileAtRank | src/adaptive_vpn/protocol.py:198-207 | At a position i + f between two ranks the quantile is the point at f on the line between the values of rank i and i + 1. |
| Metrics.SampleQuantileForgetsOrder | analysis/statistical_analysis.py:488-500 | The analysis quantile does not depend on the order of its input. |
| Metrics.MetricsInRange | src/adaptive_vpn/protocol.py:217-235 | Metrics of rows without negative round-trip times are usable observations: loss between 0 and 100, jitter not negative, and a non-negative mean if anything was received. |
| Metrics.ProbeCounts | src/adaptive_vpn/protocol.py:217-235 | For every acceptable table the probe's metrics count: sent is the rows, received the rows answered, loss times the rows is 100 times the rows timed out, and mean times received is the sum of the answered rows' round-trip times. |
| Metrics.SummaryCounts | analysis/statistical_analysis.py:566-577 | The same of the analysis: its loss and mean are those of the rows timed out and answered. |
| Metrics.LossAtTheEnds | src/adaptive_vpn/protocol.py:230 | Such a loss is 0 exactly if every packet was answered and 100 exactly if every packet timed out. |
| Metrics.FiguresByRank | src/adaptive_vpn/protocol.py:217-235 | The 95th percentile of probe and analysis lies on the line between the two sorted round-trip times around rank 0.95 (n - 1), and both medians are the quantile at one half. |
| Metrics.Jitter | src/adaptive_vpn/protocol.py:210-214 | The loop computes the recurrence of section 6.4.1 of RFC 3550 over adjacent differences. |
| Metrics.JitterBounded | src/adaptive_vpn/protocol.py:210-214 | Jitter lies between 0 and the largest adjacent difference. |
| Metrics.JitterConverges | src/adaptive_vpn/protocol.py:210-214 | Steady differences are approached from below, the gap shrinking by a sixteenth per sample. |
| Metrics.JitterInClosedForm | src/adaptive_vpn/protocol.py:210-214 | The jitter is a sixteenth of the sum of the absolute differences, each decayed by 15/16 for every later one. |
| Metrics.SummarisePacketRows | analysis/statistical_analysis.py:503-580 | Accepts exactly tables with distinct sequences and consistent final rows, and returns the summary of the samples ordered by send time and value, whose loss and mean count the rows timed out and answered. |
| Metrics.ToleranceOfRtt | analysis/statistical_analysis.py:545-560 | A recorded round-trip time may differ from the one of its times by 1e-6 ms, or beyond 1000 ms by a billionth of the larger. |
| Metrics.SummariesShareCounts | analysis/statistical_analysis.py:566-577 | For every table both sides accept, probe and analysis agree on counts, loss, mean, median and 95th percentile, which `Metrics.ProbeCounts` and `Metrics.FiguresByRank` fix. |
| Metrics.OrderIsKept | analysis/statistical_analysis.py:566 | The analysis keeps the probe's sample order if and only if samples are sorted by send time, then value. |
| Metrics.RecordedOrderIsKept | analysis/statistical_analysis.py:566 | When packets were recorded in the order they were sent, the analysis reorders only packets of one send time: the sequence of send times is unchanged. |
| Metrics.JitterAgrees | analysis/statistical_analysis.py:566-577 | When the received samples are in order of send time, ties by value, the two jitters agree if and only if something was received. |
| Metrics.IncreasingSendsAgree | analysis/statistical_analysis.py:566-577 | With strictly increasing send times the two summaries agree in every figure, in jitter if and only if something was received. |
| Metrics.TiedSendsDisagree | analysis/statistical_analysis.py:566-570 | Three packets sent in one nanosecond on which the two jitters differ. |
| Pairing.ValidateConfirmatoryMatrix | analysis/statistical_analysis.py:1343-1384 | Accepts exactly the tables of the expected size that form a matrix: distinct runs, each strategy exactly once per cell, the same cells in every block. |
| Pairing.CompleteCellIffOneEach | analysis/statistical_analysis.py:1359-1369 | The size-and-set comparison holds exactly when each strategy ran once in the cell. |
| Pairing.MismatchedBlocks | analysis/statistical_analysis.py:1374-1384 | Finds exactly the blocks whose cells differ from those of the lowest block, so none exactly when all layouts agree. |
| Differences.AlignPairedDifferences | analysis/statistical_analysis.py:1545-1585 | Succeeds exactly when no cell has two runs of a side, every cell has both, all with the metric, and there is a cell; then one pair per cell, by block, scenario and profile, with that cell's own two runs and metrics, the difference being what the alternative has above the baseline. |
| Contrast.MatrixPairs | analysis/statistical_analysis.py:1545-1585 | Over a valid matrix pairing any two expected strategies fails only for a missing metric. |
| Contrast.MatrixCanFailPairing | analysis/statistical_analysis.py:227-233 | A valid matrix of one cell in which one run has no metric, and which cannot be paired. |
| Contrast.MatrixPairKeys | analysis/statistical_analysis.py:1564-1580 | Over a valid matrix there is exactly one pair per cell. |
| Blocks.AggregateBlockDifferences | analysis/statistical_analysis.py:1588-1604 | Blocks ascend, one per block with a pair; each counts its own pairs, and count times difference is the total of theirs. |
| Blocks.AggregationConserves | analysis/statistical_analysis.py:1588-1604 | Weighted by cell counts, block differences add up to the total of the pairs, and the counts to their number. |
| Blocks.BalancedMean | analysis/statistical_analysis.py:1695-1720 | With equally many pairs per block the mean of block means is the mean of all pairs. |
| Contrast.MatrixBlocksAreBalanced | analysis/statistical_analysis.py:1374-1384 | Over a valid matrix every block has the same number of pairs. |
| Contrast.MeanDifference | analysis/statistical_analysis.py:1695-1724 | Over a valid matrix the reported mean difference is the mean of all paired differences, so times their number it is their total, and equals mean(alternative) - mean(baseline). |
| Sums.GroupsAddUp | analysis/statistical_analysis.py:1588-1604 | Totals over any grouping add up to the total. |
| Sums.TotalIsAdditive | analysis/statistical_analysis.py:1588-1604 | A total is a sum: of one value it is that value, of two lists joined the sum of their totals. |
| Strings.LexByFirstDifference | analysis/statistical_analysis.py:1564-1580 | The text order that sorting relies on is decided by the first difference: there the smaller text ends or has the smaller character. |
| Schedule.Shuffle | src/adaptive_vpn/schedule.py:139-140 | The in-place shuffle computes the permutation its draws determine. |
| Schedule.ShuffledPermutes | src/adaptive_vpn/schedule.py:139-140 | Whatever is drawn, a shuffle is a permutation. |
| Schedule.EveryOrderIsDrawn | src/adaptive_vpn/schedule.py:139-140 | Every order of a list is what some draws give, so one shuffle excludes none. |
| Schedule.EveryScheduleIsDrawn | src/adaptive_vpn/schedule.py:129-162 | Every combination of orders of the strategies, one for each cell, is what some stream of draws gives: the shuffles use draws of their own. |
| Schedule.GenerateSchedule | src/adaptive_vpn/schedule.py:129-162 | The nested loops generate the specified list for every stream of draws, and the final size check never fires. |
| Schedule.ScheduleIsBijection | src/adaptive_vpn/schedule.py:129-162 | Ordinals 1..n correspond one to one to the (block, scenario, profile, strategy) tuples of the design, for every stream. |
| Schedule.CellsInOrder | src/adaptive_vpn/schedule.py:129-138 | Cells come block by block, within a block scenario by scenario in the plan's order, and within a scenario profile by profile. |
| Schedule.CellGroup | src/adaptive_vpn/schedule.py:139-159 | Each cell's consecutive entries are all strategies in a permuted order. |
| Schedule.IdentityInjective | src/adaptive_vpn/schedule.py:142-145 | Equal identity strings, even of two plans, mean equal dataset, configuration, seed, cell and strategy, as no field contains the separator. |
| Schedule.IdentityText | src/adaptive_vpn/schedule.py:142-145 | The identity joins dataset, configuration, seed, block, scenario, profile and strategy, in this order. |
| Schedule.CellIdsAreDistinct | src/adaptive_vpn/schedule.py:142-147 | No two entries share a cell id. |
| Strings.JoinInjective | src/adaptive_vpn/schedule.py:142-145 | Parts without the separator can be read back from the joined text. |
| Strings.DecimalInjective | src/adaptive_vpn/schedule.py:142-145 | Decimal numerals are injective. |
| Strings.DecimalReadsBack | src/adaptive_vpn/schedule.py:142-145 | Reading the digits of a decimal numeral gives its number back. |
| Schedule.GeneratedPassesChecks | src/adaptive_vpn/schedule.py:464-486 | The registered schedule passes the loader's count, ordinal and both duplicate checks. |
| Schedule.CheckDocument | src/adaptive_vpn/schedule.py:449-493 | The loader accepts exactly the document the plan determines, whose header is the plan's and whose entries are numbered from 1, carry the UUID of their identity and are as many as the design has: its other checks follow from the final comparison. |
| Inventory.PrintParseRoundTrip | src/adaptive_vpn/collector.py:2033-2045 | Printing any listing of the files and parsing it back gives the same digests if and only if every name is safe and none contains a line-break character. |
| Inventory.PrintInventory | src/adaptive_vpn/collector.py:2033-2045 | The inventory can be written exactly for ASCII names; it is one line per file in ascending order of the names, the digest, two spaces, the name and a line feed; and it parses back exactly when every name is safe and none has a line break. |
| Inventory.ParsedIsUnbroken | src/adaptive_vpn/collector.py:2418-2428 | No parsed name ever contains a line break. |
| Inventory.LinesSplit | src/adaptive_vpn/collector.py:2418-2428 | Splitting gives the lines of the text, each ended by one break, carriage return and line feed together being one. |
| Inventory.LinesRead | src/adaptive_vpn/collector.py:2424-2447 | A line is read exactly when it is 64 lower-case hexadecimal digits, two spaces and the name of a directory entry other than the inventory, and as just these. |
| Inventory.CheckLines | src/adaptive_vpn/collector.py:2424-2447 | The error-collecting loop reports nothing exactly when every line is well formed, new, and gives the digest of a file that exists. |
| Inventory.ValidateInventory | src/adaptive_vpn/collector.py:2411-2463 | No error exactly when the text is ASCII, parses to the digests of the regular files, and the core files are among them. |
| Inventory.ReconcileEvidence | src/adaptive_vpn/collector.py:2288-2324 | No error exactly when the manifest's evidence map is the file digests minus manifest.json. |
| Publish.Parents.RenameChecked | src/adaptive_vpn/collector.py:580-616 | Returns exactly when the destination is free and no call fails; the directory is then moved, and otherwise it is away only if the check after the rename and the undoing rename both failed. |
| Publish.Parents.PublishDirectory | src/adaptive_vpn/collector.py:619-675 | Returns exactly when the destination is free and none of the sixteen calls fails. Over a free destination the directory ends under its final name exactly when this returns or the faults strand it (a failure after the rename whose undoing rename fails too, or a failed close after the last verification), and is where it was otherwise; an existing destination always raises and is never replaced. |
| Publish.OneFaultStrands | src/adaptive_vpn/collector.py:619-675 | If exactly one call fails, the directory is stranded if and only if that call is one of the two closes: every other single fault is rolled back. |
| Publish.OneFailedCloseStrands | src/adaptive_vpn/collector.py:673-675 | A concrete execution: one fault, at the last close, and the call raises with the directory under its final name and gone from staging. |
| Bundle.ValidateBundle | src/adaptive_vpn/collector.py:2327-2496 | A bundle is judged valid exactly when it is within the entry limit, its inventory is ASCII and parses to the digests of the files, the manifest's evidence map agrees, and the other checks pass; unsafe file names are never listed and so never valid. |
| Bundle.ManifestMakesSealable | src/adaptive_vpn/collector.py:2012-2031 | Writing the manifest leaves a bundle whose inventory will be found valid if and only if all names are printable and there is room for manifest and inventory. |
| Bundle.SealingSeals | src/adaptive_vpn/collector.py:2033-2052 | Adding an ASCII inventory seals the bundle if and only if it parses back to the other files' digests and the manifest agrees with them. |
| Bundle.SealedFileByFile | src/adaptive_vpn/collector.py:2327-2463 | Sealed means, file by file: an ASCII inventory that lists every other file by the digest of its content and nothing else, a manifest whose evidence map does the same for all but itself, and the packet and event files. |
| Bundle.EvidenceBundle.WritePacket | src/adaptive_vpn/collector.py:1888-1896 | Refuses exactly a closed bundle, a bad row or a duplicate, making no call; otherwise appends the row and counts it once, or raises what the write raised with everything as it was. |
| Bundle.EvidenceBundle.WriteEvent | src/adaptive_vpn/collector.py:1898-1902 | Refuses exactly a closed bundle or a bad event, making no call; otherwise appends the event and counts it once, or raises what the write raised with everything as it was. |
| Bundle.EvidenceBundle.RefusedArtifacts | src/adaptive_vpn/collector.py:1904-1917 | An artifact is refused exactly for a closed bundle, bad content, a name that is no plain entry name, or one of the four reserved names. |
| Bundle.EvidenceBundle.WriteTextArtifact | src/adaptive_vpn/collector.py:1904-1917 | A refused artifact makes no call; otherwise the content is written under its name and nothing else changes, or what failed is raised, with the file left as far as it was written if it was opened. |
| Bundle.EvidenceBundle.RefusedArguments | src/adaptive_vpn/collector.py:1989-2010 | Finalising refuses exactly a closed bundle, a complete one with a reason or without rows or events, and an incomplete one without a reason of more than white space. |
| Bundle.EvidenceBundle.Finalise | src/adaptive_vpn/collector.py:1989-2065 | Refused arguments leave everything untouched. Otherwise publication is reached exactly when the files can be sealed and no call before it fails, the reads of the validation included; this returns exactly if no call of the publication fails either. The bundle stands under its final name, sealed with the given status and holding the evidence as it was written beside manifest and inventory, exactly when this returns (published) or the faults strand it (quarantined); otherwise both parents are unchanged. |
| Bundle.OneFailedCloseQuarantines | src/adaptive_vpn/collector.py:2057-2065 | A concrete execution: one row, one event and one fault, at the last close of the publication; finalising raises and reports quarantined a bundle that stands published, complete and sealed. |
| RunScript.PassesIff | src/adaptive_vpn/runner.py:594-651 | A run gets through the steps of its `try` before finalising if and only if every write is accepted and no call fails. |
| RunScript.FailedEnding | src/adaptive_vpn/runner.py:655-694 | When a step fails, its place and kind decide the end: never complete; incomplete exactly for an ordinary failure whose handler meets no interrupt while stopping and cleaning and no failure while recording and publishing; a server left running exactly for an interrupt between start and stop. |
| RunScript.PassedEnding | src/adaptive_vpn/runner.py:652-694 | When every step succeeds: complete exactly if a packet was recorded, the validator agrees and no call of finalising fails; incomplete exactly if none was recorded and the failure is kept; no server is left running. |
| RunScript.NoFaultReturns | src/adaptive_vpn/runner.py:583-694 | Without faults and refused writes a run returns complete if it recorded a packet, and incomplete if not. |
| RunScript.OneFailureIsKept | src/adaptive_vpn/runner.py:655-694 | One ordinary failure, at any call before finalising, and the run returns incomplete: the failure is retained as evidence. |
| RunScript.OneInterruptAbandons | src/adaptive_vpn/runner.py:594-694 | One interrupt before finalising leaves the server running if and only if it came from a call after the start and before the stop; nothing is returned. |
| RunScript.MeasuredOnlyWhenPrepared | src/adaptive_vpn/runner.py:594-623 | In the log of any run, however it ends, impairments, phases and lab status come only after the clean check, the setup, the calibration and the server start, in that order and all returned. |
| RunScript.CompleteLog | src/adaptive_vpn/runner.py:594-654 | The log of a complete run, call by call: clean check, setup, calibration and server start; each phase once, in order, directly after exactly its impairments; then server stop, lab status, cleanup, clean check and finalise, once each; all returned. |
| RunScript.SeenIsRows | src/adaptive_vpn/collector.py:1888-1896 | The sequence numbers a run counts as written are those of its rows. |
| Runner.NotRunning | src/adaptive_vpn/runner.py:602-640 | No server is left running exactly when a stop follows every start that returned. |
| Runner.ExperimentRun.Conclude | src/adaptive_vpn/runner.py:650-654 | Returns complete exactly if the validator agrees and no call of finalising fails, with the bundle published directly after cleanup and clean check; otherwise it raises, and the bundle is not published unless the publication stranded it. |
| Runner.ExperimentRun.Recover | src/adaptive_vpn/runner.py:655-694 | The failure handler stops a started server, cleans up if nobody has, and returns incomplete exactly when the plan lets the failure be kept, with one bundle published as incomplete; otherwise it raises with none published, unless the publication stranded it. |
| Runner.ExperimentRun.Run | src/adaptive_vpn/runner.py:583-694 | How a run ends is what its plan of faults says, in both directions: it returns complete, returns incomplete, or leaves a server running exactly when `RunScript.EndingOf` does, and raises otherwise. Its log is the calls the source makes in the `try`, up to the first that failed, followed by calls of the handlers that only stop, clean up and close; a complete run made them all, as `RunScript.CompleteLog` spells out, and recorded every row, every event and the status of the lab. Cleanup is called exactly once. An outcome means exactly one published bundle, sealed with its status; a raised error means none, unless the publication stranded it, and an abandoned run leaves its bundle open. |
| Runner.InterruptLeavesServerRunning | src/adaptive_vpn/runner.py:616-623 | A concrete run: one phase whose executor is interrupted; the lab is cleaned once, nothing is published, and the server is left running. |

## Left out

- FreezeDisk.Disk.FreezeAll: one plan; the loop over plan names repeats it, and each plan's entries are among the untouched entries of the others. Of the capability probe only its final sync of the registration directory is modelled.
- FreezeDisk.RecoverAfterCrashes: assumes a fixed configuration between crash and recovery, and that the old plan does not register a temporary or plan name as its schedule.
- FreezeDisk.Disk.StageTemp: every entry is a regular file of acceptable size; symbolic links, directories and files changing under the reader are not modelled.
- Campaign.EveryRunKeepsSound: the 20,000-entry cap appears as the condition under which a sound root is accepted; staging residue never enters the raw root.
- Workflow.ChainErrors: the chain loop only. The set comparison before it (`src/adaptive_vpn/workflow.py:172-183`) compares text with UUID objects and can never succeed, so nothing rests on it.
- Workflow.EvidenceRoot.ExecuteRegisteredPlan: a runner that removes or changes what was published is not modelled. Without one entry per attempt the root may no longer inventory after the last; `Workflow.SecondBundleIsNotNoticed` says what a second one breaks.
- Analysis.LoadEvidence: generated-data markers and the second comparison of the digests, which the validation it starts with makes first (`src/adaptive_vpn/collector.py:2288-2324`), are not modelled; a directory and a symbolic link to one are the same.
- Analysis.LoadDataset: for runs of an older schema the closing comparison with the registry is not modelled, and each is registered or not as its entry says.
- Workflow.SelectTerminalAttempts: one comparison per registered field; the text conversion of manifest values is not modelled.
- RawInventory.InventoryAttempts: the digest of `SHA256SUMS` and the type of `failure_reason` are not checked a second time; the bundle validation it starts with computes the one (`src/adaptive_vpn/collector.py:2411`) and checks the other (`src/adaptive_vpn/collector.py:1741-1752`).
- Executor.CollectPhases: `longest_disruption_ms` is not modelled, and the parallel probe sessions of a window run one after another on its clock, which their separate sockets and ledgers allow.
- Probe.RunPackets: timeouts are whole nanoseconds on one monotonic clock; the difference between `time.monotonic` and `time.monotonic_ns` rounding, thread start-up failures and socket options are not modelled.
- Metrics.SummarisePacketRows: rows are already parsed numbers; CSV text and optional-field parsing are not modelled.
- Publish.Parents.PublishDirectory: a failing call has no effect, and each examination of a path or handle is one call; an interrupt delivered between two statements rather than by a call is not modelled. Windows publication is not modelled.
- Bundle.EvidenceBundle.Finalise: the checks of rows, events and manifest fields are one verdict, and all reads of the validation are one call; byte limits and reader races are not modelled, and listing and hashing files is part of the write that uses them.
- Bundle.EvidenceBundle.WritePacket: a failed write leaves no partial row.
- Bundle.EvidenceBundle.WriteEvent: a failed write leaves no partial line.
- Runner.ExperimentRun.Run: an interrupt arrives through a call, not between two statements; what the lab, the executor and the validator return is given beforehand, and what each handed-back record holds is not modelled.
- Pairing.ValidateConfirmatoryMatrix: the text of the reported problems is not modelled.
- Exact IEEE rounding, bootstrap intervals, the Wilcoxon test, effect sizes, figures and tables.
- Lab commands, the echo server, namespaces, SSH and browser runners, the field schedule, configuration parsing, YAML and JSON libraries.
- Node inventory, WebRTC record and secret-scanning checks: single-branch members.
