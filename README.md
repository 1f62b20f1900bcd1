# CS command handling and task arbitration, in Dafny

This project models the command handlers of the cFS Checksum (CS)
application (`fsw/src/cs_cmds.c`). The handlers are no-op, reset counters,
the background checksumming cycle, enable/disable of all checksumming and
of the cFE core and OS code segments, report baseline, recompute baseline,
one-shot and cancel one-shot. All of them update one shared record,
`CS_AppData`: its housekeeping packet (counters, enable states, in-progress
flags, background cursor, last one-shot request) and the child-task
bookkeeping (`ChildTaskID`, `ChildTaskTable`, `ChildTaskEntryID`, the
recompute entry pointer).

Files:

- `cs_types.dfy` (module `CsTypes`): the data model. Table identifiers,
  areas and code segments, the housekeeping packet, the application state,
  and the outcomes of host services.
- `cs_spec.dfy` (module `CsSpec`): each handler's effect as a function from
  the state before the command to the state after it. The contracts state
  the gate, rollback, counter and frame properties. `Cycle` is the
  background loop as a recursion over the cursor.
- `cs_cmds.dfy` (module `CsCmds`): class `CsApp`, whose fields mirror
  `CS_AppData`. It has one method per handler; each updates the fields in
  place, in the handler's order, and is proved to end in exactly the state
  the matching `CsSpec` function gives. `BackgroundCheckCycle` keeps the
  source's `while` loop over `DoneWithCycle`/`EndOfList`, with invariants
  and a termination measure.
- `cs_properties.dfy` (module `CsProperties`): lemmas. They cover the trace
  of one background cycle, repeated enable/disable commands, host outcomes
  that are never consulted, and invariants over any sequence of commands.
  Those sequences include the completion of the child task.

Host services become parameters:

- `CS_VerifyCmdLength` is a boolean `lengthOk` and is assumed to have no
  effect on the state.
- `CFE_ES_CreateChildTask` is a `CreateStatus`: `Created(taskId)` or
  `CreateFailed(status)`.
- `CFE_PSP_MemValidateRange` is a boolean `rangeOk`.
- `CFE_ES_DeleteChildTask` is a boolean `deleteOk`.
- The six per-area background workers are an oracle
  `Workers = (Area, Cursor) -> WorkerStep`.

The assumption about the workers (`CsSpec.AdvancesOrDone`): a worker called
on a table before the last one either returns "done" or moves
`CurrentCSTable` strictly forward. Nothing is assumed of the App worker. It
may wrap the cursor to table 0, because the loop ends after it anyway.
Within one cycle the tables the workers are called on strictly increase
(`CycleVisitsInOrder`). So a worker that is a function of the area and the
cursor can produce any sequence of outcomes that stateful workers could.

Assumed constants: the table identifiers `CS_CFECORE` = 0 … `CS_APP_TABLE` =
5 and `CS_NUM_TABLES` = 6. They are declared in a header that is not part
of this model.

Facts about the code that the model keeps as written:

- **Report changes the counter.** Report-baseline is not a pure read: it
  adds 1 to `CmdCounter` (fsw/src/cs_cmds.c:411, 442).
- **No wrap at the end of the list.** The background cycle resets the
  cursor to the first table and counts a pass only in the `default` branch,
  for a table value past the last one. When the last table's worker ends
  the cycle, the cursor it leaves is kept (`CycleEnd`,
  `BackgroundCycleEnds`).
- **No task ID for recompute.** A recompute never stores the child task
  ID, so the task ID does not tell whether a child task exists.
  The invariant proved is `CsSpec.Consistent`: never both flags, and a
  recompute in progress has its target recorded.
- **Partial rollback on create failure.** The rollback clears only the
  flags. `ChildTaskTable`, `ChildTaskEntryID`, the recompute entry and the
  one-shot request fields stay overwritten.

## Model

| member | source | states |
|---|---|---|
| `CsTypes.TableArea` | fsw/src/cs_cmds.c:160-196 | a table value selects one of the six workers exactly when it is below `CS_NUM_TABLES`, and the worker's table identifier is that value; any other value takes the `default` branch |
| `CsSpec.ZeroTempValues` | fsw/src/cs_cmds.c:225-233 | zeroing an area discards that area's partial accumulation and leaves every other area's partial and everything else unchanged |
| `CsSpec.Acknowledge` | fsw/src/cs_cmds.c:44-62 | a read-only command of good length changes nothing but `CmdCounter`, which goes up by 1; a bad length changes nothing |
| `CsSpec.ReportOf` | fsw/src/cs_cmds.c:398-410 | the report carries the stored comparison value iff `ComputedYet`, and otherwise is the "not computed yet" notice |
| `CsSpec.Reset` | fsw/src/cs_cmds.c:75-90 | on a good length, command, error, six per-area error and pass counters are all 0 and nothing else changes (no `CmdCounter` increment afterwards); a bad length changes nothing |
| `CsSpec.DisableAll` | fsw/src/cs_cmds.c:221-240 | on a good length, `ChecksumState` is disabled, all six partial accumulations are empty and, partials aside, only the state and `CmdCounter` + 1 differ |
| `CsSpec.EnableAll` | fsw/src/cs_cmds.c:255-264 | on a good length, `ChecksumState` is enabled and otherwise only `CmdCounter` + 1 differs; no partial is zeroed |
| `CsSpec.DisableSegment` | fsw/src/cs_cmds.c:279-293 | on a good length, the segment's state is disabled, only that segment's partial is zeroed, the other areas' partials are untouched, and otherwise only `CmdCounter` + 1 differs |
| `CsSpec.EnableSegment` | fsw/src/cs_cmds.c:308-321 | on a good length, the segment's state is enabled and otherwise only `CmdCounter` + 1 differs |
| `CsSpec.RecomputeBaseline` | fsw/src/cs_cmds.c:460-506 | busy means only `CmdErrCounter` + 1. When admitted, the target table, entry 0 and entry pointer are recorded either way. The flag stays set iff creation succeeded. Success gives `CmdCounter` + 1, failure `CmdErrCounter` + 1. The task ID is never stored. The arbitration invariant is preserved |
| `CsSpec.OneShot` | fsw/src/cs_cmds.c:586-663 | a rejected range or a busy gate means only `CmdErrCounter` + 1. When admitted, address and size are recorded, the budget is the default iff the command asks for 0, the checksum is 0 and the recompute flag is clear. Success sets the one-shot flag, stores the new task ID and gives `CmdCounter` + 1. Failure clears both flags, keeps the task ID and gives `CmdErrCounter` + 1. No other housekeeping field and nothing outside the housekeeping packet but the task ID changes. The arbitration invariant is preserved |
| `CsSpec.CancelOneShot` | fsw/src/cs_cmds.c:679-712 | acts only when a one-shot and no recompute is in progress, else only `CmdErrCounter` + 1. A successful delete zeroes the task ID, clears both flags and gives `CmdCounter` + 1. A failed delete gives only `CmdErrCounter` + 1. The arbitration invariant is preserved |
| `CsSpec.Cycle` | fsw/src/cs_cmds.c:148-200 | at most `CS_NUM_TABLES` minus the starting table worker calls, all on valid tables at or after the start; an unknown starting table resets to table 0, entry 0 and counts one pass without calling any worker |
| `CsSpec.BackgroundCheckCycle` | fsw/src/cs_cmds.c:110-206 | a length mismatch, checksumming disabled or a child task in progress leaves the state unchanged; otherwise only the cursor and pass counter change; an unknown table is reset to (0, 0) with one more pass; the arbitration invariant is preserved |
| `CsCmds.CsApp.NoopCmd` | fsw/src/cs_cmds.c:44-62 | the new state is `Acknowledge` of the old |
| `CsCmds.CsApp.ResetCmd` | fsw/src/cs_cmds.c:69-92 | the new state is `Reset` of the old |
| `CsCmds.CsApp.BackgroundCheckCycle` | fsw/src/cs_cmds.c:100-208 | the `while` loop over `DoneWithCycle`/`EndOfList` terminates under the worker assumption and ends in the state `CsSpec.BackgroundCheckCycle` gives, i.e. with the cursor the recursive `Cycle` ends with |
| `CsCmds.CsApp.DisableAllCSCmd` | fsw/src/cs_cmds.c:215-242 | the new state is `DisableAll` of the old, with the six zeroing calls made in place |
| `CsCmds.CsApp.EnableAllCSCmd` | fsw/src/cs_cmds.c:249-266 | the new state is `EnableAll` of the old |
| `CsCmds.CsApp.DisableCfeCoreCmd` | fsw/src/cs_cmds.c:273-295 | the new state is `DisableSegment` of the old for the cFE core |
| `CsCmds.CsApp.EnableCfeCoreCmd` | fsw/src/cs_cmds.c:302-325 | the new state is `EnableSegment` of the old for the cFE core |
| `CsCmds.CsApp.DisableOSCmd` | fsw/src/cs_cmds.c:332-354 | the new state is `DisableSegment` of the old for the OS code segment |
| `CsCmds.CsApp.EnableOSCmd` | fsw/src/cs_cmds.c:361-382 | the new state is `EnableSegment` of the old for the OS code segment |
| `CsCmds.CsApp.ReportBaselineCfeCoreCmd` | fsw/src/cs_cmds.c:389-414 | on a good length the report is `ReportOf` the cFE core segment; the state changes only by `CmdCounter` + 1 |
| `CsCmds.CsApp.ReportBaselineOSCmd` | fsw/src/cs_cmds.c:421-445 | on a good length the report is `ReportOf` the OS code segment; the state changes only by `CmdCounter` + 1 |
| `CsCmds.CsApp.RecomputeBaselineCfeCoreCmd` | fsw/src/cs_cmds.c:452-508 | the new state is `RecomputeBaseline` of the old for the cFE core |
| `CsCmds.CsApp.RecomputeBaselineOSCmd` | fsw/src/cs_cmds.c:515-570 | the new state is `RecomputeBaseline` of the old for the OS code segment |
| `CsCmds.CsApp.OneShotCmd` | fsw/src/cs_cmds.c:577-665 | the new state is `OneShot` of the old |
| `CsCmds.CsApp.CancelOneShotCmd` | fsw/src/cs_cmds.c:672-714 | deletion is requested, for the stored task ID, exactly when the length is good and only a one-shot is in progress; the new state is `CancelOneShot` of the old |
| `CsProperties.CycleVisitsInOrder` | fsw/src/cs_cmds.c:148-199 | within one cycle the workers are called on strictly increasing tables, so each runs at most once |
| `CsProperties.CycleCallsChain` | fsw/src/cs_cmds.c:148-199 | the first worker call is at the starting cursor; every call but the last began before the last table, returned "not done" and handed its cursor to the next call |
| `CsProperties.CycleEnd` | fsw/src/cs_cmds.c:148-199 | a cycle from a valid table ends with the last worker's cursor if it returned "done" or was the last table's worker (no wrap here); otherwise the last worker moved past every table and the cursor is reset with one more pass |
| `CsProperties.BackgroundCycleEnds` | fsw/src/cs_cmds.c:128-199 | a background-cycle command that passes its gates with a valid table calls the first worker at the current cursor, and ends with the cursor the last worker left if it returned "done" or was the last table's worker; otherwise with the cursor reset to table 0, entry 0 and one more pass |
| `CsProperties.DisableAllTwice` | fsw/src/cs_cmds.c:221-240 | repeating disable-all changes only `CmdCounter` (+ 1) |
| `CsProperties.EnableAllTwice` | fsw/src/cs_cmds.c:255-264 | repeating enable-all changes only `CmdCounter` (+ 1) |
| `CsProperties.DisableSegmentTwice` | fsw/src/cs_cmds.c:338-352 | repeating a segment disable changes only `CmdCounter` (+ 1) |
| `CsProperties.EnableSegmentTwice` | fsw/src/cs_cmds.c:367-380 | repeating a segment enable changes only `CmdCounter` (+ 1) |
| `CsProperties.RangeRejectionCreatesNothing` | fsw/src/cs_cmds.c:591-662 | a rejected range gives only `CmdErrCounter` + 1, busy or not, and the result does not depend on the task-creation outcome |
| `CsProperties.BusyCreatesNothing` | fsw/src/cs_cmds.c:595-652 | while a child task is in progress, recompute and one-shot results do not depend on the task-creation outcome |
| `CsProperties.NothingToCancelDeletesNothing` | fsw/src/cs_cmds.c:682-711 | with no one-shot to cancel, the result does not depend on the task-deletion outcome |
| `CsProperties.RecomputeFinishes` | fsw/src/cs_cmds.c:465-470 | assumed completion of the recompute child task: the entry recorded at start gets the new baseline and the recompute flag is cleared; the arbitration invariant is preserved |
| `CsProperties.OneShotFinishes` | fsw/src/cs_cmds.c:598-612 | assumed completion of the one-shot child task: its checksum is recorded and the one-shot flag is cleared; the arbitration invariant is preserved |
| `CsProperties.Step` | fsw/src/cs_cmds.c:460-711 | every command, and every child-task completion, keeps the arbitration invariant |
| `CsProperties.RunKeepsConsistent` | fsw/src/cs_cmds.c:462-690 | from a consistent state, every sequence of commands ends in a consistent state; in particular the two in-progress flags are never both set |
| `CsProperties.StepHoldsRecompute` | fsw/src/cs_cmds.c:462-682 | while a recompute is in progress, any command other than its completion leaves the flag set and the recorded target unchanged |
| `CsProperties.RecomputeHeldUntilFinished` | fsw/src/cs_cmds.c:462-682 | single flight: across any sequence of commands without the recompute's completion, the recompute flag stays set, no one-shot starts and the target is unchanged |
| `CsProperties.RecomputeThenReport` | fsw/src/cs_cmds.c:465-470 | a recompute that starts and then completes with value v makes report-baseline announce v, with the recompute flag clear |

## Left out

- Event messages (`CFE_EVS_SendEvent`): their IDs and texts are not modelled. The report commands return the baseline they announce, and cancel returns the task ID it asks to delete.
- `CS_UpdateCDS` under `CS_PRESERVE_STATES_ON_PROCESSOR_RESET`: conditional-compilation persistence, not modelled.
- The child tasks `CS_RecomputeEepromMemoryChildTask` and `CS_OneShotChildTask` are not part of this model. Their completion is modelled only as the assumed steps `RecomputeFinishes` and `OneShotFinishes`. They run concurrently with the command handlers, and that concurrency is not modelled.
- The per-area background workers and `CS_Zero*TempValues` are not part of this model. Workers are an oracle under the advance-or-done assumption. The zeroing routines reset an abstract partial accumulation (byte offset and temporary checksum), one per area. For the four table-driven areas, that one value stands for all entries of the table.
- The workers' other effects are not modelled: a worker advances its area's partial accumulation (the one the `CS_Zero*TempValues` routines discard), writes a segment's `ComputedYet` and `ComparisonValue` after its first full pass, compares checksums, bumps the per-area error counters and sends events. Only the cursor, the pass counter and the "done" result are modelled. So in the model partial accumulations only ever become empty, baselines are written only by `RecomputeFinishes`, and `CsSpec.BackgroundCheckCycle` states that only the cursor and the pass counter change.
- The internals of `CS_VerifyCmdLength`, `CFE_ES_CreateChildTask`, `CFE_ES_DeleteChildTask`, `CFE_PSP_MemValidateRange` and the `CFE_MSG_Get*` accessors are not modelled. Neither is the cast of the message buffer to the one-shot command.
- Counter widths are not modelled. All counters are unbounded naturals, so the model claims nothing about wrap-around.
- `CsSpec.Consistent`: weaker than "a worker task exists iff exactly one flag is set". The code never stores a recompute task's ID, so the model does not relate `ChildTaskID` to the flags.
