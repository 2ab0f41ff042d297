# A verified model of RainStorm, HyDFS and their membership protocol

The repository is a small distributed system in Go: a stream-processing framework (RainStorm)
that runs on a replicated append-only file system (HyDFS), which in turn places its files by the
member list of a gossip protocol. This project models the four protocols that carry the
system's promises and proves what they keep, over every run and every interleaving, and where the code
falls short, exactly when.

`dafny verify dfyconfig.toml` checks the whole project.

## How it is built

Code that changes objects in place is modelled by classes: `RainStormTask`, `FileReplica`,
`MemberList`, `Leader`, `Worker`. Each method's `ensures` equates the new state with a function of the old
one, and the protocols are step systems over those functions. A run is any list of steps; a step that
is not enabled changes nothing, so a statement about all lists is a statement about all runs.

| file | about |
|---|---|
| `Delivery.dfy` | one stage task: duplicate elimination, durable log, stdin, replay, output numbers |
| `TaskLife.dfy`, `TaskLimits.dfy` | one task over pushes, append failures, operator deaths, kills, restarts, replay, adopted logs: what it keeps, and where it falls short exactly |
| `Operators.dfy` | operators as line transducers; the filter, count and transform programs |
| `OrderlyTask.dfy` | one task whose log and input stay in order, and exactly which steps keep them so |
| `Pipeline.dfy`, `JobResults.dfy` | a whole job: invariant, and results for any job |
| `FilterCount.dfy`, `FilterJob.dfy`, `ExampleRun.dfy` | the repository's two applications, filter and count, filter and transform; a run with a crash that finishes |
| `DedupText.dfy`, `Text.dfy` | the text of message IDs and dedup logs, and reading it back |
| `Hydfs.dfy` | one file on one node, and the computation of a merge |
| `HydfsProtocol.dfy`, `HydfsResults.dfy`, `HydfsOnce.dfy`, `HydfsBehind.dfy`, `HydfsOrder.dfy` | appends, fan-outs and merges over all replicas: invariant, results, how bytes are repeated and exactly when, their order |
| `HydfsPrimaries.dfy` | the same with several primaries for one file: a lost append, and exactly when nothing is lost |
| `Membership.dfy`, `Gossip.dfy` | one node's membership table; many nodes and a network that delays, repeats, reorders and loses |
| `RoundRobin.dfy` | handing out peers in turn |
| `Ring.dfy` | the hash ring and the replicas of a file |
| `Scheduler.dfy`, `Leader.dfy`, `Placement.dfy`, `Topology.dfy` | the leader's task map, its changes, the load of workers, and what running tasks know of their neighbours |
| `Sequences.dfy` | facts about sequences, multisets and runs |

## Main results

- **The output does not depend on the schedule.** In every run of a filter-and-count job in which the count
  tasks finish, whatever the interleaving, retries, lost replies, failed appends, and crashes and restarts
  of filter tasks, the output file holds exactly the lines `k: 1` … `k: n_k` for every key `k`
  (`FilterCount.FilterCountOutput`, `FilterCountOutputOnly`); after a filter and any operator without state it
  holds what that prints for the matching source lines (`FilterJob.FilterOutput`); for any operators that do not care about
  the order of their input, any two runs whose last stage finishes leave the same lines
  (`JobResults.ScheduleIndependence`).
- **Exactly once across restarts** before the last stage (`NumberingIsStable`, `LoggedAtMostOnce`,
  `FinishedMeansExactlyOnce`), and the **end-of-stream barrier**, lifted over the stages: when one
  task's stdin closes, all of every earlier stage has been printed and accepted (`EosBarrier`); and it closes
  exactly when the end has come from every node upstream (`ClosedExactlyWhenAllEnded`).
- **Acknowledged tuples are durable** over any failures of one task (`TaskLife.AckedTuplesAreDurable`). They have
  reached the operator once the replay is complete over an open stdin; when an end of stream closes
  stdin, none is lost exactly when no restart has forgotten one and the lines still to be read, of the own
  log and of adopted ones, are already written (`TaskLimits.ClosingEosDeliversExactlyWhen`). No ID
  reaches the same operator twice exactly when the loaded log has distinct IDs (`TaskLife`), and exact
  conditions over whole runs say when the log has distinct IDs and when the operator's input
  follows the log (`TaskLimits`).
- **No acknowledged append is lost**: under any interleaving of appends and merges, with any call
  failing, it stays whole in the file of every replica for ever (`HydfsResults.AckedAppendNeverLost`). Over all
  runs, the primary's file holds each operation once exactly when no replica has answered a merge
  while behind: a push missed, or a fan-out taken that a pushed merge had overtaken, since the last
  push that reached it (`HydfsBehind.FilesHoldOnceExactlyWhen`). In careful runs, where merges start with no
  fan-out under way and all pushes arrive, and with increasing operation IDs, the primary's file is
  the appends in order, through any number of merges (`HydfsOrder.PrimaryFileIsAppends`).
- **Incarnations belong to their owner**: no copy anywhere is ahead of the member itself, so a
  refutation beats every copy (`Gossip.OwnershipHolds`, `RefutationWins`). A member that was removed comes
  back only by news other than its failure (`Gossip.MembersReturnByMessages`).
- **Placement**: replicas are the nodes of least clockwise distance, and joins and departures move one
  node at most (`Ring`); the task map stays contiguous over all scale-ups, scale-downs and
  restarts (`Leader.RunsKeepTaskMap`); loads stay within one of each other (`Placement`).

Where a promise does not hold of the code, the model keeps the code as it is and states when it
holds: names ending in `ExactlyWhen`, each beside a concrete run that breaks it.

## Where code and documentation disagree, or the code surprises

- `README.md` of the repository promises exactly-once output. A push is appended to the dedup log before
  it is written to stdin (node/node_stream.go:622-652); when stdin is gone, the retry is logged
  again and the next incarnation gets the tuple twice (`TaskLimits.RetryOverDeadOperatorDuplicates`).
- The replay runs beside new pushes (node/node_stream.go:411-413), so a push can overtake it
  (`TaskLimits.PushDuringReplayReorders`). So does a push after one that was logged and reported as failed, with
  nothing to replay (`TaskLimits.FailedReplyReorders`).
- The replay also runs beside the end of stream: the last one closes stdin, the rest of the replay is dropped
  (node/node_stream.go:979-983), and acknowledged tuples are lost by a task that reports success
  (`TaskLimits.EosDuringReplayLosesTuple`); so beside the reading of an adopted log (`EosDuringAdoptionLosesTuple`).
- A push of a merge that fails leaves the old entries beside the compacted one, and the next merge
  takes them for different operations (`HydfsOnce.FailedPushRepeatsBytes`).
- A client's append may go to any replica as its primary (node/node.go:594-602), while a merge locks the file
  at the first one only: an append that falls between another replica's poll and push is acknowledged
  and gone from that replica (`HydfsPrimaries.AckedAppendIsLost`).
- A failed create removes the data file and keeps the log, which blocks the name until a merge
  (`Hydfs.FailedCreateBlocksName`, `MergeRestoresFile`).
- A restarted task gets the arguments of its first start, also after scaling changed its neighbours
  (`Topology.RestartAfterScaleUpIsStale`). A broadcast call that fails is not repeated, and leaves a task with
  old neighbours (`Topology.ScaleUpIsUpToDateExactlyWhen`).
- The operation IDs of a task's appends to the output file are compared as strings: a merge puts its tenth line
  before its ninth (node/node.go:350-352, `Hydfs.TenBeforeNine`).
- A log handed to a survivor that is down is refused, and not handed out again (node/node_autoscale.go:344-354,
  `TaskLimits.AdoptionByKilledTaskIsRefused`).
- A task ID is used again after a scale-down; a late report of the old task's end restarts
  the new one (`Leader.LateReportRestartsReplacement`).
- With all loads at 999999 or more the least-loaded scan returns the first worker
  (`Placement.ScanFindsLeastExactlyWhen`).

## Assumptions

- A kill removes a task from its node's table together with its process, and comes before its last
  end-of-stream tuple; no push is in flight on the old incarnation when the log is reloaded, and the
  reload returns the whole log. That the log read from a primary is in the order of the pushes follows
  from `HydfsOrder` when the file's run is careful and its operation IDs increase. That the IDs
  `dedup-<time>-<message>` of one task's appends do increase is an assumption, not proved from their text.
- `TaskLife` and `TaskLimits` let everything else happen to a task at any time. The runs of `Pipeline` are held
  to the conditions that `TaskLimits` and `OrderlyTask` show to be exact (`Pipeline.InOrder`): no push appends an ID
  that is logged and not processed, tuples are written in turn, and the last end of stream comes to a
  living operator whose replay is complete.
- Replies to end-of-stream tuples are not lost; output appends succeed; operators are deterministic and
  print per line.
- RPCs are synchronous, local disk writes succeed, lines are below the scanner's limit, and the ring is
  stable while a HyDFS file is in use. Except in `HydfsPrimaries` one primary coordinates each file
  (`CallHyDFSWrite`).
- SHA-256 is injective where `Injective(hash)` is required; hashing, JSON and CSV are given functions.
- In the filter-and-count results both operators use the same column, and no source line with the pattern has
  a tab there.
- Timeouts, failed probes, failed calls and autoscale decisions happen at any moment.

## Model

| member | source | states |
|---|---|---|
| `Delivery.RainStormTask.constructor` | node/node_stream.go:380-393 | a started task holds the IDs of its whole log as processed, has an open and empty stdin, and nothing replayed |
| `Delivery.RainStormTask.Accept` | node/node_stream.go:604-655 | one tuple: the end of stream is counted and closes stdin at the last upstream; data is as in AcceptData |
| `Delivery.RainStormTask.AcceptData` | node/node_stream.go:619-655 | a processed ID is acknowledged and ignored; otherwise logged before it is written, and marked only after the write; each failure leaves what was done before it |
| `Delivery.RainStormTask.PushTuple` | node/node_stream.go:592-658 | a batch stops at its first failure, keeping the tuples before it |
| `Delivery.PushSucceedsExactlyWhen` | node/node_stream.go:604-656 | a push is answered with success if and only if it is an end of stream, its ID is processed, or it is logged and written |
| `Delivery.BatchStopsAtFirstFailure` | node/node_stream.go:604-656 | a batch takes in the tuples one after the other up to the first that fails, whose reply it gives, and none after it |
| `Delivery.RainStormTask.ReplayNextLine` | node/node_stream.go:956-985 | one line of the own log is written to stdin without a duplicate check |
| `Delivery.RainStormTask.AdoptLine` | node/node_stream.go:966-985 | one line of another task's log: skipped if processed, else marked and written, and not logged |
| `Delivery.RainStormTask.AdoptOrphanLog` | node/node_stream.go:915-954 | the lines of a removed task's log, one after the other |
| `Delivery.RainStormTask.NumberOutput` | node/node_stream.go:464-470 | output lines are numbered from 1 without gaps |
| `Delivery.PushKeepsIncarnation` | node/node_stream.go:604-655 | a push keeps: processed IDs are those written plus those still to replay, and no ID is written twice if the loaded log has none twice |
| `Delivery.ReplayOwnKeepsIncarnation` | node/node_stream.go:956-985 | a replayed line of the own log keeps: processed IDs are those written plus those still to replay, and no repetition if the loaded log has none |
| `Delivery.ReplayOrphanKeepsIncarnation` | node/node_stream.go:966-985 | a line of an adopted log keeps the same |
| `TaskLife.RunKeepsInv` | node/node_stream.go:592-658 | in every run of pushes, failures, operator deaths, kills, restarts, replay and adoption: processed IDs are those written plus those still to replay, and everything processed or acknowledged is in a durable log |
| `TaskLife.StdinClosedExactlyWhen` | node/node_stream.go:608-618 | in an incarnation that nothing has killed every end of stream is counted, and stdin is closed if and only if one at least and as many as there are upstream tasks have come |
| `TaskLife.CounterCounts` | node/node_stream.go:649-652 | the rate counter is the number of tuples that pushes have written since the start |
| `TaskLife.AckedTuplesAreDurable` | node/node_stream.go:622-656 | every acknowledged tuple is in the task's log or an adopted one, over any failures |
| `TaskLife.AckedTuplesReachOperator` | node/node_stream.go:956-985 | without adoptions, after a finished replay with stdin open, each acknowledged ID has been written to the current operator |
| `TaskLife.AckedEntriesReachOperator` | node/node_stream.go:956-985 | the same with the value: each acknowledged (ID, value) pair has been written, if senders always send an ID with the same value |
| `TaskLife.AtMostOncePerIncarnation` | node/node_stream.go:604-653 | with distinct IDs in the loaded log no ID is written twice to one operator, for every interleaving; after the replay the written IDs are the processed ones |
| `TaskLife.AtMostOnceExactlyWhenLogDistinct` | node/node_stream.go:960-985 | with stdin open to the end of the replay, the operator's input has no repeated ID if and only if the loaded log has none |
| `TaskLife.ScaleDownKeepsAcked` | node/node_stream.go:915-985 | when the survivor has gone through the victim's whole log, each tuple the victim acknowledged is processed and, with stdin open, written there |
| `TaskLimits.RetryOverDeadOperatorDuplicates` | node/node_stream.go:632-653 | a run in which a retry after a failed stdin write reaches the next operator twice |
| `TaskLimits.PushKeepsLogDistinctExactlyWhen` | node/node_stream.go:604-653 | a push keeps log IDs distinct if and only if the ID is not logged, or processed, or nothing is appended |
| `TaskLimits.RunKeepsLogDistinctExactlyWhen` | node/node_stream.go:604-653 | a whole run ends with distinct log IDs if and only if every push of it met that condition |
| `TaskLimits.PushDuringReplayReorders` | node/node_stream.go:411-413 | a run in which a push overtakes the replay |
| `TaskLimits.FailedReplyReorders` | node/node_stream.go:634-643 | a run in which a tuple that was logged but reported as failed leaves the input out of the log's order, with nothing to replay |
| `TaskLimits.PushKeepsOrderExactlyWhen` | node/node_stream.go:604-653 | a push keeps the input a prefix of the log if and only if the input has caught up with the log or lacks just this entry |
| `TaskLimits.RunKeepsOrderExactlyWhen` | node/node_stream.go:604-653 | over a run without adopted logs the input is a prefix of the log at every moment if and only if every tuple written came in that way |
| `TaskLimits.EosDuringReplayLosesTuple` | node/node_stream.go:608-618 | a run in which the last end of stream closes stdin during the replay: an acknowledged tuple never reaches the operator of a task that reports success |
| `TaskLimits.EosDuringAdoptionLosesTuple` | node/node_stream.go:915-985 | the same while an adopted log is being read |
| `TaskLimits.ClosingEosDeliversExactlyWhen` | node/node_stream.go:608-618 | an end of stream that closes stdin loses no acknowledged tuple, now or later, if and only if no restart has forgotten one and all lines still to be read, of the own log and of adopted ones, are already written; without adoptions, so always when the replay is complete |
| `OrderlyTask.PushIsOrderlyExactlyWhen` | node/node_stream.go:604-653 | a push keeps a task in order (distinct log IDs, input a prefix of the log, replay in step) if and only if it repeats no logged ID and is written in turn |
| `OrderlyTask.EosIsOrderlyExactlyWhen` | node/node_stream.go:608-618 | with the operator alive and all of the log processed, an end of stream keeps it so if and only if, when it closes stdin, the replay is complete |
| `TaskLimits.RestartLosesAckedExactlyWhen` | node/node_stream.go:966-974 | after a restart and its whole replay an acknowledged tuple is missing from the input if and only if the own log lacks it, and then it came with an adopted log |
| `TaskLimits.RestartForgetsAdopted` | node/node_stream.go:966-974 | a run in which a survivor acknowledges an adopted tuple and forgets it at a restart |
| `TaskLimits.AdoptionByKilledTaskIsRefused` | node/node_autoscale.go:344-354 | a run in which a log is handed to a survivor that is down: refused, and not there after the restart |
| `TaskLimits.OrphanLogReadEarlyIsCompleteExactlyWhen` | node/node_autoscale.go:337-354 | a victim's log read before a further push still covers all acknowledged tuples if and only if that push was refused or already logged |
| `Operators.RunFilter` | ops/filter/op1_filter.go:28-50 | prints in order the lines with the pattern and no others: the bare line without a column, else the field of the line's record (nothing if there is none), a tab and the line |
| `Operators.FilterPrintsMatching` | ops/filter/op1_filter.go:28-50 | the same of the filter as a transducer, for any input |
| `Operators.KeyIsColumn` | ops/filter/op1_filter.go:34-43 | the column is the field of that number in the record, and empty if there is none |
| `Text.ContainsExactlyWhen` | ops/filter/op1_filter.go:31 | a line has the pattern if and only if it is something, the pattern, and something |
| `Operators.RunCount` | ops/count/op2_count.go:18-37 | prints one line per input line: the field of its record, and the number of lines up to it with the same field |
| `Operators.CountPrintsPlaces` | ops/count/op2_count.go:18-37 | the same of the count program as a transducer, for any input |
| `Text.DecimalIsNumber` | ops/count/op2_count.go:36 | the digits printed for a number stand for it, the first of them not zero |
| `Operators.RunTransform` | ops/transform/op3_transform.go:12-29 | prints the first three fields of each record that has them, and nothing for other lines |
| `Operators.TransformPrintsFields` | ops/transform/op3_transform.go:16-28 | the same of the transform program as a transducer, for any input |
| `Operators.CountMultiplicity` | ops/count/op2_count.go:33-36 | for a key with n lines each of "k: 1" ... "k: n" is printed once, and no other count of k |
| `Operators.CountPrintsCountLines` | ops/count/op2_count.go:36 | every line the count program prints is of the form "k: n" |
| `Operators.CountIsOrderInsensitive` | ops/count/op2_count.go:18-37 | the printed lines depend on the input as a multiset only |
| `Operators.FilterIsOrderInsensitive` | ops/filter/op1_filter.go:28-50 | the lines the filter prints depend on its input as a multiset only |
| `Pipeline.RunKeepsInv` | node/node_stream.go:457-658 | in every run with failed appends (made or not), operator deaths, kills and restarts before the last stage, and replays beside pushes: logs hold distinct IDs and only what was sent there, an operator's input is a prefix of its log, numbered outputs are a prefix of what it prints, acknowledged messages are logged, and once the last end of stream has closed stdin the whole log has been read |
| `Pipeline.ActKeepsInv` | node/node_stream.go:457-658 | printing, push, end of stream, operator death, kill, restart and replayed line each keep the job's invariant |
| `Pipeline.PushKeepsTaskOrderExactlyWhen` | node/node_stream.go:604-653 | the condition on pushes in these runs is exact: any other push leaves its target's log or input out of order |
| `Pipeline.ClosedMeansAllReceived` | node/node_stream.go:608-618 | when stdin is closed, every message sent towards the task is accepted |
| `Pipeline.LineParts` | node/node_stream.go:481-490 | a printed line with a tab is its key, the first tab and its value; a line without one is both |
| `Pipeline.IdDeterminesMessage` | node/node_stream.go:464-470 | the message ID determines sender, number and content |
| `JobResults.InputIsPrefixOfLaterLog` | node/node_stream.go:622-653 | every incarnation's input is a prefix of the log at any later time |
| `JobResults.NumberingIsStable` | node/node_stream.go:464-470 | output number k is the same line to the same task in every incarnation |
| `JobResults.LoggedAtMostOnce` | node/node_stream.go:604-633 | a downstream log holds each ID once at most, and only what was sent there |
| `JobResults.FinishedMeansExactlyOnce` | node/node_stream.go:496-530 | when a task has finished, each output is in its target's log exactly once |
| `JobResults.ClosedMeansEarlierFinished` | node/node_stream.go:496-530 | by induction over the stages: once one task's stdin is closed by the end of stream, every node of every earlier stage has finished |
| `JobResults.EosBarrier` | node/node_stream.go:496-530 | when a task's stdin closes, every line printed at every earlier stage is acknowledged and in its target's log, and no more will be printed there |
| `JobResults.EveryEndIsCounted` | node/node_stream.go:608-618 | a task's count is the number of upstream nodes whose end of stream has reached its current incarnation |
| `JobResults.KilledUntilRestarted` | node/node_stream.go:783-812 | a killed task takes in nothing until its restart, which is possible at once, and what it has read can still be printed |
| `JobResults.ReplayRestoresInput` | node/node_stream.go:956-985 | after a restart and the replay of its log a task's operator has read all of it again |
| `JobResults.ClosedExactlyWhenAllEnded` | node/node_stream.go:608-618 | the end of stream has closed a task's stdin if and only if it has come to this incarnation from every upstream node |
| `JobResults.AllEndsClose` | node/node_stream.go:608-618 | a task that was never restarted has closed its stdin when every upstream node has sent its end |
| `JobResults.LastStageFinishesJob` | node/node_stream.go:496-530 | when the last stage has finished, every node has |
| `JobResults.LogIsInflow` | node/node_stream.go:457-531 | in a finished job a task's log is a permutation of what its upstreams printed towards it |
| `JobResults.SettledRunsAgree` | node/node_stream.go:457-531 | two finished runs leave every task the same input, as a multiset |
| `JobResults.ScheduleIndependence` | node/node_stream.go:457-531 | two runs whose last stage has finished leave the same lines in the output file |
| `FilterCount.TabSplitsExactlyWhen` | node/node_stream.go:482-491 | what the filter prints is taken apart into key and line again if and only if the key has no tab |
| `FilterJob.FilterOutput` | README.md:309-319 | a filter without a column, then any operator without state: the output is what the operator prints for the matching source lines, each from behind its first tab, so for the lines themselves when they have no tabs |
| `FilterJob.FilterIdentityOutput` | ops/identity/op0_identity.go:9-19 | with the identity: exactly the matching source lines, if they have no tabs |
| `FilterJob.FilterTransformOutput` | README.md:309-319 | with the transform operator: exactly the first three fields of the matching lines' records, if the lines have no tabs |
| `FilterCount.FilterCountOutput` | README.md:230-243 | if no matching source line has a tab in the column, a filter-and-count run whose count tasks have finished leaves each "k: n" with n from 1 to the number of matching lines exactly once |
| `FilterCount.FilterCountOutputOnly` | README.md:284-294 | every line of such a run's output is of the form "k: n" |
| `ExampleRun.RunFinishes` | README.md:277-294 | a filter-and-count run with a lost append reply, an operator death, a restart and a push during the replay meets what FilterCountOutput asks for and ends with the line "x: 1" |
| `DedupText.FormatInjective` | node/node_stream.go:464-470 | different message IDs are different strings |
| `DedupText.FormatExamples` | node/node_stream.go:470 | the printed IDs of source line 10 and of the tenth output of a task |
| `DedupText.TrimSpaceOutcome` | node/node_stream.go:441 | trimming takes space from both ends, all of it, and nothing else |
| `DedupText.TrimSpaceExample` | node/node_stream.go:441 | a blank before an ID and a carriage return behind it are trimmed |
| `DedupText.SplitTabParts` | node/node_stream.go:439 | the parts of a line make it up again; a line without a tab is all ID |
| `DedupText.ValueOfLine` | node/node_stream.go:960-964 | a replayed line gives what follows its first tab; a line without a tab gives nothing |
| `DedupText.ScanUnfinished` | node/node_stream.go:435-438 | a last line without its line end is read as a line |
| `DedupText.LoadIds` | node/node_stream.go:436-452 | loadDedupLog collects the trimmed first fields of the lines |
| `DedupText.ReplayText` | node/node_stream.go:956-985 | replayLogData writes what follows the first tab of each line that has one |
| `DedupText.LogTextRoundTrip` | node/node_stream.go:424-454 | reading a written log back gives the same IDs, and the same values but for one trailing carriage return |
| `DedupText.ReplayFeedsSameLinesExactlyWhen` | node/node_stream.go:956-985 | the operator reads the same lines from a replay as from the pushes if and only if no value ends in two carriage returns |
| `Hydfs.FileReplica.CreateFile` | node/node.go:413-461 | refused when the log exists, else data file and log hold the bytes |
| `Hydfs.FileReplica.AppendFile` | node/node.go:507-557 | data and log grow by the same entry; on a missing file nothing changes and the lock stays held |
| `Hydfs.FileReplica.ReconcileFile` | node/node.go:247-286 | log overwritten; data overwritten unless its hash is the announced one |
| `Hydfs.CreateKeepsFileEqualsLog` | node/node.go:430-461 | after a create the file is the concatenation of its log; it succeeds exactly on a missing file |
| `Hydfs.AppendKeepsFileEqualsLog` | node/node.go:524-557 | an append keeps file equal to log, and succeeds on an existing file |
| `Hydfs.ReconcileIsOverwrite` | node/node.go:260-286 | with an injective hash the skip makes no difference |
| `Hydfs.ReconcileKeepsFileEqualsLogExactlyWhen` | node/node.go:260-286 | in general file equals log afterwards if and only if equal hashes meant equal data |
| `Hydfs.MergeLogs` | node/node.go:303-360 | operation IDs strictly increasing by the first difference, one polled entry for each polled ID and no other, and the concatenation of their data |
| `Hydfs.LessIsFirstDifference` | node/node.go:350-352 | an ID is before another if and only if the other goes on where it ends, or has the greater character where they first differ |
| `Hydfs.TenBeforeNine` | node/node.go:350-352 | so the tenth append of a task is merged before its ninth |
| `Hydfs.UnionByOp` | node/node.go:303-344 | the table has one polled entry under each polled ID |
| `Hydfs.SortByOp` | node/node.go:346-352 | the table's entries, increasing by the first difference of their IDs |
| `Hydfs.ConsistentMerge` | node/node.go:346-360 | when equal IDs carry equal data, no entry is dropped |
| `Hydfs.MergeUnique` | node/node.go:346-360 | the merge depends on the set of polled entries alone |
| `HydfsProtocol.RunKeepsInv` | node/node.go:288-410 | in every run of appends, fan-outs and merges: file equals log, equal IDs equal data, the primary holds the most, and nothing held, issued or acknowledged is taken back |
| `HydfsProtocol.AppendKeepsInv` | node/node.go:507-557 | an append at the primary keeps that invariant, and takes nothing back |
| `HydfsProtocol.FanOutKeepsInv` | node/node.go:677-723 | a fan-out keeps the invariant, whether it arrives, fails or loses its reply |
| `HydfsProtocol.AckKeepsInv` | utils/stream_utils.go:137-170 | an acknowledged append is held by all replicas |
| `HydfsProtocol.CompactKeepsInv` | node/node.go:346-371 | the compacted entry stands for all that the primary holds |
| `HydfsProtocol.PushKeepsInv` | node/node.go:381-404 | pushing the compacted entry keeps the invariant and never takes an operation from a replica |
| `HydfsProtocol.PollKeepsInv` | node/node.go:311-343 | a poll, answered or not, keeps the invariant |
| `Hydfs.AppendReplicated` | node/node.go:677-723 | a client's append: the primary, then the others if it succeeded; acknowledged exactly when all have appended and all replies arrived |
| `Hydfs.CreateReplicated` | node/node.go:413-475 | a client's create: the primary, then the others; a failed fan-out removes the primary's data file and keeps its log; acknowledged exactly when every replica had no log, was reached and answered |
| `Hydfs.CreateLeavesFileExactlyWhen` | node/node.go:462-475 | of a new name the primary keeps a file that equals its log if and only if every fan-out call reached a replica without a log and was answered |
| `Hydfs.FailedCreateBlocksName` | node/node.go:462-475 | after a failed create no series of creates and appends is ever acknowledged again or changes the primary's copy |
| `Hydfs.MergeRestoresFile` | node/node.go:260-286 | until a merge writes the file again |
| `HydfsResults.WriteIsARun` | utils/stream_utils.go:137-170 | that append is a run of the protocol, after which its acknowledgement is possible |
| `HydfsResults.WriteIsAckedExactlyWhen` | utils/stream_utils.go:137-170 | it is acknowledged then if and only if every other replica was reached and has answered |
| `HydfsResults.CreateStartsProtocol` | node/node.go:413-475 | a create that all replicas take leaves the file with the created bytes in one entry on each, as the runs start with it |
| `HydfsResults.AckedAppendNeverLost` | node/node.go:512-568 | an acknowledged append stays in every replica's file, whole, for ever; what a replica holds only grows and is within the primary's |
| `HydfsResults.QuiescentMerge` | node/node.go:303-404 | a merge all answer leaves all replicas with the same log and file: the union in increasing ID order, each once |
| `HydfsResults.AllEntriesConsistent` | node/node.go:677-683 | equal operation IDs carry equal data on all replicas |
| `HydfsResults.MergeOrderDoesNotMatter` | node/node.go:303-404 | a quiescent merge ends the same whatever the order of polls, pushes and table walk |
| `HydfsResults.SecondMergeKeepsData` | node/node.go:354-404 | a second merge leaves the data as it is |
| `HydfsOnce.LateFanOutRepeatsBytes` | node/node.go:558-564 | a run in which a fan-out after a merge writes the bytes again |
| `HydfsOnce.FailedPushRepeatsBytes` | node/node.go:381-404 | a run in which a failed push and a later merge repeat bytes on all replicas |
| `HydfsOnce.FanOutKeepsOnceExactlyWhen` | node/node.go:558-564 | a fan-out keeps every operation once if and only if the replica does not hold it already |
| `HydfsOnce.CarefulRunsWriteOnce` | node/node.go:288-410 | when merges start with no fan-out under way and all pushes arrive, every file is a list of whole appends, each once, with all acknowledged ones |
| `HydfsBehind.FilesHoldOnceExactlyWhen` | node/node.go:288-410 | over all runs: between merges the primary's file holds every operation once if and only if no replica answered a merge while behind (a push missed, or a fan-out taken that a pushed merge had overtaken, since the last push that reached it); then any other file does if and only if no such fan-out arrived there since its last push |
| `HydfsBehind.MergeHoldsOnceExactlyWhen` | node/node.go:288-410 | after any run, a merge all answer leaves every operation in the file once if and only if it was there once before and no replica was behind in that sense |
| `HydfsPrimaries.AckedAppendIsLost` | node/node.go:578-636 | a run in which an append sent to another primary, between its poll and its push, is acknowledged and missing from that replica's file |
| `HydfsPrimaries.TakenBackExactlyWhen` | node/node.go:381-404 | with any primaries an event takes an operation from a replica if and only if it is a push of a merge that no replica with the operation answered |
| `HydfsPrimaries.RunTakesNothingBackExactlyWhen` | node/node.go:578-636 | with any primaries a run takes nothing from any replica if and only if every push comes from a merge that has gathered all its replica holds |
| `HydfsPrimaries.AckedIsEverywhere` | node/node.go:578-636 | in such a run every acknowledged append is in every replica |
| `HydfsOrder.MergeKeepsData` | node/node.go:346-360 | a merge leaves the data of a log as it is when the entries with data came with increasing operation IDs |
| `HydfsOrder.PrimaryFileIsAppends` | node/node.go:507-573 | in a careful run (quiet merge starts, arriving pushes) with increasing IDs the primary's file is at every moment the appended data in the order of the appends, through any number of merges |
| `Membership.MemberList.UpdateMemberlist` | node/membership_crud.go:108-179 | a message is taken in record by record; one about a node missing from its own table ends it; an unknown member is added if and only if some record about it is not a failure |
| `Membership.UnknownAddedExactlyWhen` | node/membership_crud.go:167-175 | after a message an unknown member is in the table if and only if the message has a record about it that is not a failure; a single such record is stored as it is |
| `Membership.ReceiveWithoutSelf` | node/membership_crud.go:112-117 | a node missing from its own table takes in the records before the first about itself, and no others |
| `Membership.NewerReplaces` | node/membership_crud.go:128-138 | a record of a newer incarnation replaces the entry whole |
| `Membership.OwnEntryOutcome` | node/membership_crud.go:112-126 | no message changes a node's own status or heartbeat; its incarnation grows by one for a suspicion at most, and only if it is alive |
| `Membership.MemberList.UpdateOther` | node/membership_crud.go:126-177 | one record about another member: newer incarnation wins, failed stays, failure and departure kill, then suspicion and heartbeat; an unknown member is stored as it is unless the record is a failure |
| `Membership.MemberList.ChangeState` | node/membership_crud.go:181-200 | changes the status only from the expected one, and returns the changed entry |
| `Membership.MemberList.TimeOutCheck` | node/membership_crud.go:202-258 | only expired entries change, and only their status: live ones under gossip to suspected, or to failed without suspicion; suspected ones to failed with suspicion; failed ones go; exactly the newly failed are returned, each once |
| `Membership.TimeOutOutcome` | node/membership_crud.go:202-258 | the same of the tables before and after |
| `Membership.SuspectedBeforeFailed` | node/membership_crud.go:228-252 | with suspicion exactly the expired suspected members fail, and under gossip exactly the expired live ones become suspected |
| `Membership.MemberList.CheckOne` | node/membership_crud.go:206-252 | one entry at a check of the timers: status by mode and expiry, incarnation and heartbeat kept, removal, and the news of a failure |
| `Membership.MemberList.GetMemberList` | node/membership_crud.go:82-90 | the snapshot has every entry once and nothing else |
| `Membership.ReceiveMovesForward` | node/membership_crud.go:128-168 | other members' entries never go back in (incarnation, status, heartbeat) and none is removed |
| `Membership.TimeOutMovesForward` | node/membership_crud.go:202-258 | a check of the timers never moves an entry back, and removes expired failed entries only |
| `Membership.ReceiveByMember` | node/membership_crud.go:108-179 | what happens to a member's entry depends on it and the records about it alone |
| `Membership.AbsorbAllOutcome` | node/membership_crud.go:128-168 | the outcome of records of no higher incarnation, said without their order |
| `Membership.OrderDoesNotMatter` | node/membership_crud.go:128-168 | messages with the same records, in any order and number, leave the same status, and the same heartbeat if alive |
| `Membership.OrderMattersExactlyWhen` | node/membership_crud.go:128-138 | two records commute if and only if no overtaken one is fatal and no departure meets a live one |
| `Membership.OldFailureAfterRefutation` | node/membership_crud.go:128-150 | a stale failure kills after a refutation and not before |
| `Membership.MemberList.Permutation` | node/membership_crud.go:310-326 | the new list is a shuffle of the eligible peers |
| `Membership.ProbedExactlyWhen` | node/membership_crud.go:310-316 | the shuffled list has a member if and only if it is another one and alive, suspected or departed |
| `Membership.MemberList.RoundRobinK` | node/membership_crud.go:280-308 | with fixed peers each call takes the rest of the shuffle and at most one new one; never more than asked, all when as many are asked |
| `Membership.MemberList.PickInTurn` | node/membership_crud.go:295-307 | the loop of roundRobinK: picks and rest are the old rest, or the old rest and one new shuffle |
| `Membership.MemberList.PickRepeatedly` | node/node.go:1102-1126 | the rounds of probing and gossip over fixed peers: any 2n-1 picks in a row include every peer |
| `RoundRobin.PicksAreShuffles` | node/membership_crud.go:280-326 | all picks and the rest are whole shuffles one after the other |
| `RoundRobin.EveryPeerGetsATurn` | node/membership_crud.go:280-326 | any 2n-1 picks in a row include every one of n peers |
| `RoundRobin.ShorterWindowMayMiss` | node/membership_crud.go:280-326 | for every n of at least 2, any one of n peers can be left out of 2n-2 picks in a row |
| `Gossip.OwnershipHolds` | node/node.go:1191-1223 | in every run no table and no message holds a higher incarnation or heartbeat of a member than its own |
| `Gossip.NewTableBounded` | node/membership_crud.go:181-268 | a message, timer, probe, heartbeat or departure never lowers the node's own incarnation or heartbeat, brings back no lost own entry, and puts no copy above its owner |
| `Gossip.ActKeepsOwned` | node/membership_crud.go:112-138 | every step keeps copies within their owner's incarnation and heartbeat, which only grow |
| `Gossip.OneStepPerMessage` | node/membership_crud.go:112-126 | a message raises a living node's incarnation by one if it carries a current suspicion, and else not |
| `Gossip.MemberReturnsExactlyWhen` | node/membership_crud.go:167-175 | a member that is not in a node's table is there after a step only if the node received a record about it that is not a failure, and then it is, as long as the node is in its own table |
| `Gossip.MembersReturnByMessages` | node/membership_crud.go:167-175 | over any run a removed member comes back only by such a message |
| `Gossip.HeartbeatCounts` | node/membership_crud.go:260-268 | a node's heartbeat in its own table is the number of its beats |
| `Gossip.FailedProbeOutcome` | node/membership_crud.go:181-200 | a failed probe gives a living member the status asked for and changes nothing else |
| `Gossip.TimersOutcome` | node/membership_crud.go:202-258 | a check of the timers times out the members of that node's table, and of no other's |
| `Gossip.DepartureIsHeard` | node/membership_crud.go:128-175 | a departed node's news fails it at whoever knew this incarnation, and is stored by whoever did not |
| `Gossip.RefutationWins` | node/membership_crud.go:119-138 | after a refutation the own incarnation is above every copy, and the entry replaces what any next receiver had |
| `Gossip.ActMovesForward` | node/node.go:1123-1163 | each step moves other members' entries forward, and removes failed ones only |
| `Gossip.RunsMoveForward` | node/membership_crud.go:128-168 | over any run, as long as an entry is kept, it never goes back in (incarnation, status, heartbeat) |
| `Ring.GetRingInfo` | utils/utils.go:198-218 | the members' hashes and RPC addresses, without the leader and malformed addresses |
| `Ring.RingNodeIsMember` | utils/utils.go:198-218 | the ring has the hash and RPC address of every member but the leader, and nobody else |
| `Ring.RpcAddressOf` | utils/utils.go:188-195 | of host:port the host with the RPC port, in brackets if it has a colon; an error only without a colon |
| `Ring.GetSuccessor` | utils/utils.go:222-236 | num nodes from the first whose ID is not below the file's, around the ring |
| `Ring.GetReplica` | utils/utils.go:239-272 | three nearest nodes, all of them members and none the leader, or which error when |
| `Ring.SuccessorsAreNearest` | utils/utils.go:222-236 | on a sorted ring with different IDs these are the nodes of least clockwise distance, in order |
| `Ring.NearestUnique` | utils/utils.go:222-236 | nearest nodes are determined by the set of nodes |
| `Ring.PlacementIgnoresOrder` | utils/utils.go:239-272 | the order of the member list does not matter |
| `Ring.RemoveOutside` | utils/utils.go:222-236 | removing a node that was not chosen changes nothing |
| `Ring.RemoveInside` | utils/utils.go:222-236 | removing a chosen one keeps the others in order and adds one at the end |
| `Ring.AddOne` | utils/utils.go:222-236 | adding a node changes nothing or replaces the last by it, in its place |
| `Leader.Leader.CalculateDeploymentPlan` | node/node_stream.go:190-202 | task number i of the job goes to worker i modulo their number |
| `Leader.Leader.StartAllTasks` | node/node_stream.go:204-297 | succeeds exactly when all starts do; then the IDs of each stage are 0..n-1, and the total is their number |
| `Leader.Leader.GetSortedStageWorkers` | node/node_autoscale.go:420-441 | the addresses by increasing task ID |
| `Leader.Leader.MaxTaskID` | node/node_autoscale.go:156-167 | with the invariant, the number of tasks less one |
| `Leader.Leader.GetLeastLoadedWorker` | node/node_autoscale.go:387-418 | the first worker with the least load, the first of all if no load is below 999999 |
| `Leader.Leader.CountLoads` | node/node_autoscale.go:392-405 | the number of tasks at each address |
| `Leader.Leader.ScaleUp` | node/node_autoscale.go:153-263 | adds the next ID at the chosen worker with the neighbours of the moment, or changes nothing; keeps the invariant |
| `Leader.Leader.ScaleDown` | node/node_autoscale.go:265-355 | removes the greatest ID unless it is the last task; task 0 exists, differs from it and adopts its log; keeps the invariant |
| `Leader.Leader.TaskFinished` | node/node_stream.go:814-872 | complete when as many have finished as there are tasks; a failure restarts exactly the tasks in the map |
| `Leader.Leader.RecordRestart` | node/node_stream.go:882-894 | only the process ID of an entry still in the map changes |
| `Leader.RunsKeepTaskMap` | node/node_autoscale.go:153-355 | after any scale-ups, scale-downs and restarts an index into a stage's list is the ID of the task at that address |
| `Leader.ReportIgnoredExactlyWhen` | node/node_stream.go:849-860 | a failure report is ignored if and only if its ID is not in use |
| `Leader.LateReportRestartsReplacement` | node/node_stream.go:849-860 | after scale-down and scale-up the victim's ID is that of the new task, which a late report of the victim restarts |
| `Leader.StartedJobIsBalanced` | node/node_stream.go:190-202 | a started job loads any two workers within one task of each other |
| `Scheduler.IndexIsTask` | node/node_stream.go:555-575 | with contiguous IDs hash modulo length is the ID of a task at that address |
| `Scheduler.AddKeepsValid` | node/node_autoscale.go:221-241 | adding the next ID keeps IDs contiguous and the total in step |
| `Scheduler.DropKeepsValid` | node/node_autoscale.go:302-311 | removing the greatest ID keeps IDs contiguous and the total in step |
| `Scheduler.RestartKeepsValid` | node/node_stream.go:884-894 | recording a restart keeps IDs contiguous and the total in step |
| `Scheduler.RestartRecordsProcess` | node/node_stream.go:884-894 | a restart records the task's new process ID and changes nothing else |
| `Placement.DeployedIsBalanced` | node/node_stream.go:190-202 | round robin loads any two workers within one task of each other |
| `Placement.FirstPlanned` | node/node_stream.go:190-202 | the first task goes to the first worker |
| `Placement.PlannedInTurn` | node/node_stream.go:190-202 | each task goes to the worker after that of the task before, and after the last to the first |
| `Placement.ScanFindsLeastExactlyWhen` | node/node_autoscale.go:407-417 | the scan finds a least loaded worker if and only if some load is below 999999 or the first worker is one |
| `Placement.OneMoreKeepsBalanceExactlyWhen` | node/node_autoscale.go:387-418 | one more task keeps the balance if and only if it goes to a least loaded worker |
| `Placement.ScaleUpsKeepBalance` | node/node_autoscale.go:387-418 | any series of scale-ups over the same workers keeps loads within one of each other while some load is below 999999 |
| `Topology.Worker.UpdateDownstream` | node/node_autoscale.go:14-38 | sets the list of every task of that stage on the node, and nothing else |
| `Topology.Worker.UpdateUpstream` | node/node_autoscale.go:452-471 | sets the upstream count of every task of that stage on the node, and nothing else |
| `Topology.DeployedIsUpToDate` | node/node_stream.go:204-297 | when all starts of a job have succeeded, in whatever order they arrive, every task in the leader's map runs at its address and knows the addresses of the next stage and the size of the one before |
| `Topology.ScaleUpIsUpToDateExactlyWhen` | node/node_autoscale.go:153-263 | after a scale-up every task knows the addresses of the next stage and the size of the one before if and only if the broadcasts reached every node that runs a neighbour |
| `Topology.ScaleDownIsUpToDateExactlyWhen` | node/node_autoscale.go:265-355 | the same after a scale-down, the victim gone from its node |
| `Topology.KillOneKeepsOthers` | node/node_stream.go:783-812 | removing a task that is not in the leader's map makes no difference to what the others know |
| `Topology.RoutedTupleArrives` | node/node_stream.go:558-585 | when all know their neighbours, the node at any index of a task's list runs the next stage's task of that number |
| `Topology.SortedWorkersAreAddresses` | node/node_autoscale.go:420-441 | the leader's sorted list is the addresses by task ID, and no other list is |
| `Topology.RestartIsUpToDateExactlyWhen` | node/node_stream.go:874-884 | after a restart all is up to date if and only if the first arguments still are |
| `Topology.RestartAfterChangesIsUpToDateExactlyWhen` | node/node_stream.go:874-884 | after any scale-ups, scale-downs and restarts, a restarted task is up to date if and only if the next stage's addresses and the previous stage's size are those of its first start |
| `Topology.RestartAfterScaleUpIsStale` | node/node_stream.go:874-884 | after the next stage was scaled up, a restarted task routes by the old list |

## Left out

- Sockets, UDP and TCP listeners, RPC dialling, command parsing and the CLI: plumbing without state worth an invariant.
- The log querier, loggers, shell scripts, the Spark job and result data: I/O only.
- Liveness and detection latency: a restarted task begins with an end-of-stream count of 0, so a job need not finish after a crash. `ExampleRun` shows a run with a crash that does.
- Crashes of last-stage tasks, exactly-once output under autoscaling and under concurrent merges: the code does not provide them. Rate averages and cooldowns: scaling happens at any moment.
- Delivery.RainStormTask.AdoptOrphanLog: one call goes through the whole log; that lines of an orphan log interleave with pushes and with the own replay is in TaskLife.
- Pipeline.RunKeepsInv: steps that break `Pipeline.InOrder` are left out; a push that does puts its target's log or input out of order (Pipeline.PushKeepsTaskOrderExactlyWhen), and stable output numbers need that order.
- Pipeline.ActKeepsInv: the same.
- Delivery.RainStormTask.ProcessExit: in Pipeline an operator dies only before the last end-of-stream tuple is counted; the code reports a later death as a success, and so an earlier one when that tuple comes before the report.
- HydfsProtocol.RunKeepsInv: its runs have one primary per file; what holds with several is in HydfsPrimaries, about which operations a replica holds and not about their order or repetition.
- Hydfs.MergeLogs: the `err` variable that MergeFile's goroutines share is treated as local to each replica.
- Hydfs.LessIsFirstDifference: characters stand for the bytes that the code compares.
- Hydfs.FileReplica.AppendFile: local write errors are left out; the two paths that return with the lock held are kept.
- Membership.MemberList.TimeOutCheck: clock values, thresholds and LastUpdateTime are not modelled; an entry whose timer was just reset is not expired again in the same check.
- Membership.MemberList.RoundRobinK: the list holds IDs, not pointers to entries, so address changes through the pointer are not seen.
- Membership.MemberList.UpdateMemberlist: counters do not wrap at 64 bits.
- Ring.GetReplica: the placement claims need different hashes for different members.
- Leader.Leader.ScaleUp: the branch for a log that could not be created is kept as scaleUp has it, though createHyDFSFile never reports an error (node/node_stream.go:299-316).
- Leader.Leader.StartAllTasks: the concurrent starts are a loop, as each writes its own key.
- Methods that are one assignment or one comparison (Route, ReadColumn, ExitStatus, RemoveData, GetOperationLog, AddHeartBeat, TurnLeave, GetStageTaskCount, StartTask, KillTask) have no row; the rows of the lemmas and methods that use them say what they do.
- The background replica check and re-replication: not started by the code (node/node.go:212).
- SendTupleWithRetry and the other retry loops are deliveries that may be repeated in the step systems, not methods.
- ops/identity is the operator `Identity`; its loop is not a method of its own. The CSV writer of ops/transform is a given function from fields to a line.
