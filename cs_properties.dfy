/*
 * Properties of the command handlers: what one background cycle does, step
 * by step; what repeating an enable or disable command does; and the
 * arbitration invariants over any sequence of commands, including the
 * completion of the child task, which runs outside this file.
 */
module CsProperties {
  import opened CsTypes
  import opened CsSpec

  // ---------------------------------------------------------------------
  // The background cycle
  // ---------------------------------------------------------------------

  predicate TablesIncrease(calls: seq<Cursor>)
  {
    forall i, j :: 0 <= i < j < |calls| ==> calls[i].table < calls[j].table
  }

  /** The workers run in strictly increasing table order, so each at most once per cycle. */
  lemma {:induction false} CycleVisitsInOrder(c: Cursor, w: Workers)
    requires AdvancesOrDone(w)
    ensures TablesIncrease(Cycle(c, w).calls)
    decreases NUM_TABLES - Min(c.table, NUM_TABLES)
  {
    match TableArea(c.table)
    case None =>
    case Some(a) =>
      var step := w(a, c);
      if !(step.done || c.table >= NUM_TABLES - 1) {
        CycleVisitsInOrder(step.next, w);
        var rest := Cycle(step.next, w).calls;
        var calls := Cycle(c, w).calls;
        assert calls == [c] + rest;
        assert TableId(a) == c.table;
        assert step.next.table > c.table;
        forall i, j | 0 <= i < j < |calls| ensures calls[i].table < calls[j].table {
          assert calls[j] == rest[j - 1];
          if i > 0 {
            assert calls[i] == rest[i - 1];
          }
        }
      }
  }

  /**
   * The calls of one cycle form a chain: the first is at the starting cursor,
   * and every call but the last began before the last table, reported "not
   * done" and handed its cursor to the next call.
   */
  lemma {:induction false} CycleCallsChain(c: Cursor, w: Workers)
    requires AdvancesOrDone(w)
    ensures var calls := Cycle(c, w).calls;
            (calls == [] <==> c.table >= NUM_TABLES) &&
            (calls != [] ==> calls[0] == c) &&
            forall i :: 0 <= i < |calls| - 1 ==>
              calls[i].table < NUM_TABLES - 1 && !Dispatch(w, calls[i]).done &&
              Dispatch(w, calls[i]).next == calls[i + 1]
    decreases NUM_TABLES - Min(c.table, NUM_TABLES)
  {
    match TableArea(c.table)
    case None =>
    case Some(a) =>
      var step := w(a, c);
      if !(step.done || c.table >= NUM_TABLES - 1) {
        CycleCallsChain(step.next, w);
        var rest := Cycle(step.next, w).calls;
        assert Cycle(c, w).calls == [c] + rest;
        if step.next.table < NUM_TABLES {
          assert rest[0] == step.next;
        }
      }
  }

  /**
   * How a cycle from a valid table ends: with the cursor the last worker
   * left if it reported "done" or was the last table's worker (no wrap is
   * done here), and otherwise, when the last worker moved the cursor past
   * every table, with the cursor reset and one more pass counted.
   */
  lemma {:induction false} CycleEnd(c: Cursor, w: Workers)
    requires AdvancesOrDone(w)
    requires c.table < NUM_TABLES
    ensures var r := Cycle(c, w);
            r.calls != [] &&
            var last := r.calls[|r.calls| - 1];
            var step := Dispatch(w, last);
            if step.done || last.table == NUM_TABLES - 1 then r.final == step.next
            else step.next.table >= NUM_TABLES && r.final == Cursor(0, 0, step.next.pass + 1)
    decreases NUM_TABLES - c.table
  {
    var a := TableArea(c.table).value;
    var step := w(a, c);
    if !(step.done || c.table >= NUM_TABLES - 1) {
      var rest := Cycle(step.next, w);
      assert Cycle(c, w).calls == [c] + rest.calls;
      if step.next.table < NUM_TABLES {
        CycleEnd(step.next, w);
      }
    }
  }

  /**
   * What the background-cycle command does when it runs: the first worker is
   * called at the current cursor, and the command ends with the cursor the
   * last worker left if it reported "done" or was the last table's worker,
   * and otherwise, after the last worker moved past every table, with the
   * cursor reset and one more pass counted.
   */
  lemma BackgroundCycleEnds(s: AppState, actualLength: nat, expectedLength: nat, w: Workers)
    requires AdvancesOrDone(w)
    requires actualLength == expectedLength && s.hk.checksumState == Enabled && ChildTaskIdle(s)
    requires s.hk.currentCSTable < NUM_TABLES
    ensures var calls := Cycle(CursorOf(s), w).calls;
            var after := CursorOf(BackgroundCheckCycle(s, actualLength, expectedLength, w));
            calls != [] && calls[0] == CursorOf(s) &&
            var step := Dispatch(w, calls[|calls| - 1]);
            if step.done || calls[|calls| - 1].table == NUM_TABLES - 1 then after == step.next
            else step.next.table >= NUM_TABLES && after == Cursor(0, 0, step.next.pass + 1)
  {
    CycleCallsChain(CursorOf(s), w);
    CycleEnd(CursorOf(s), w);
  }

  // ---------------------------------------------------------------------
  // Repeated enable and disable commands
  // ---------------------------------------------------------------------

  lemma DisableAllTwice(s: AppState)
    ensures var once := DisableAll(s, true);
            OnlyCmdCounted(once, DisableAll(once, true))
  {
  }

  lemma EnableAllTwice(s: AppState)
    ensures var once := EnableAll(s, true);
            OnlyCmdCounted(once, EnableAll(once, true))
  {
  }

  lemma DisableSegmentTwice(s: AppState, g: Segment)
    ensures var once := DisableSegment(s, true, g);
            OnlyCmdCounted(once, DisableSegment(once, true, g))
  {
  }

  lemma EnableSegmentTwice(s: AppState, g: Segment)
    ensures var once := EnableSegment(s, true, g);
            OnlyCmdCounted(once, EnableSegment(once, true, g))
  {
  }

  // ---------------------------------------------------------------------
  // Host service outcomes that are never consulted
  // ---------------------------------------------------------------------

  /** A rejected range never reaches the busy gate or task creation: the creation outcome is irrelevant. */
  lemma RangeRejectionCreatesNothing(s: AppState, req: OneShotRequest, c1: CreateStatus, c2: CreateStatus)
    ensures OneShot(s, true, false, req, c1) == OneShot(s, true, false, req, c2)
    ensures OnlyErrCounted(s, OneShot(s, true, false, req, c1))
  {
  }

  /** A busy gate never reaches task creation, for recompute and one-shot alike. */
  lemma BusyCreatesNothing(s: AppState, g: Segment, req: OneShotRequest, c1: CreateStatus, c2: CreateStatus)
    requires !ChildTaskIdle(s)
    ensures RecomputeBaseline(s, true, g, c1) == RecomputeBaseline(s, true, g, c2)
    ensures OneShot(s, true, true, req, c1) == OneShot(s, true, true, req, c2)
  {
  }

  /** Cancel with no one-shot to cancel never reaches task deletion. */
  lemma NothingToCancelDeletesNothing(s: AppState)
    requires !(s.hk.oneShotInProgress && !s.hk.recomputeInProgress)
    ensures CancelOneShot(s, true, true) == CancelOneShot(s, true, false)
  {
  }

  // ---------------------------------------------------------------------
  // Completion of the child task (outside this file) and command sequences
  // ---------------------------------------------------------------------

  /**
   * The recompute child task finishing with a new baseline: the entry it was
   * started on gets that baseline and the in-progress flag is cleared.
   */
  function RecomputeFinishes(s: AppState, value: nat): (r: AppState)
    ensures s.hk.recomputeInProgress && s.recomputeEntry.Some? ==>
      !r.hk.recomputeInProgress && ReportOf(r, s.recomputeEntry.value) == Reported(value)
    ensures !(s.hk.recomputeInProgress && s.recomputeEntry.Some?) ==> r == s
    ensures Consistent(s) ==> Consistent(r)
  {
    if s.hk.recomputeInProgress && s.recomputeEntry.Some? then
      var t := match s.recomputeEntry.value
        case CfeCoreSeg => s.(cfeCoreCodeSeg := s.cfeCoreCodeSeg.(computedYet := true, comparisonValue := value))
        case OsSeg => s.(osCodeSeg := s.osCodeSeg.(computedYet := true, comparisonValue := value));
      t.(hk := t.hk.(recomputeInProgress := false))
    else s
  }

  /** The one-shot child task finishing: its checksum is recorded and the in-progress flag is cleared. */
  function OneShotFinishes(s: AppState, checksum: nat): (r: AppState)
    ensures s.hk.oneShotInProgress ==>
      !r.hk.oneShotInProgress && r.hk.recomputeInProgress == s.hk.recomputeInProgress
    ensures s.hk.oneShotInProgress ==> r.hk.lastOneShotChecksum == checksum
    ensures !s.hk.oneShotInProgress ==> r == s
    ensures Consistent(s) ==> Consistent(r)
  {
    if s.hk.oneShotInProgress then
      s.(hk := s.hk.(lastOneShotChecksum := checksum, oneShotInProgress := false))
    else s
  }

  /** A command together with the outcomes of the host services it consults. */
  datatype Command =
    | NoopCmd(lengthOk: bool)
    | ResetCmd(lengthOk: bool)
    | BackgroundCycleCmd(actualLength: nat, expectedLength: nat, workers: Workers)
    | DisableAllCmd(lengthOk: bool)
    | EnableAllCmd(lengthOk: bool)
    | DisableSegmentCmd(segment: Segment, lengthOk: bool)
    | EnableSegmentCmd(segment: Segment, lengthOk: bool)
    | ReportBaselineCmd(segment: Segment, lengthOk: bool)
    | RecomputeBaselineCmd(segment: Segment, lengthOk: bool, create: CreateStatus)
    | OneShotCmd(lengthOk: bool, rangeOk: bool, request: OneShotRequest, create: CreateStatus)
    | CancelOneShotCmd(lengthOk: bool, deleteOk: bool)
    | RecomputeFinished(value: nat)
    | OneShotFinished(checksum: nat)

  ghost predicate WellFormed(cmd: Command)
  {
    cmd.BackgroundCycleCmd? ==> AdvancesOrDone(cmd.workers)
  }

  ghost predicate AllWellFormed(cmds: seq<Command>)
  {
    forall i :: 0 <= i < |cmds| ==> WellFormed(cmds[i])
  }

  /** The state after one command. Every command keeps the arbitration invariant. */
  function Step(s: AppState, cmd: Command): (r: AppState)
    requires WellFormed(cmd)
    ensures Consistent(s) ==> Consistent(r)
  {
    match cmd
    case NoopCmd(ok) => Acknowledge(s, ok)
    case ResetCmd(ok) => Reset(s, ok)
    case BackgroundCycleCmd(actual, expected, w) => BackgroundCheckCycle(s, actual, expected, w)
    case DisableAllCmd(ok) => DisableAll(s, ok)
    case EnableAllCmd(ok) => EnableAll(s, ok)
    case DisableSegmentCmd(g, ok) => DisableSegment(s, ok, g)
    case EnableSegmentCmd(g, ok) => EnableSegment(s, ok, g)
    case ReportBaselineCmd(_, ok) => Acknowledge(s, ok)
    case RecomputeBaselineCmd(g, ok, create) => RecomputeBaseline(s, ok, g, create)
    case OneShotCmd(ok, rangeOk, req, create) => OneShot(s, ok, rangeOk, req, create)
    case CancelOneShotCmd(ok, deleteOk) => CancelOneShot(s, ok, deleteOk)
    case RecomputeFinished(value) => RecomputeFinishes(s, value)
    case OneShotFinished(checksum) => OneShotFinishes(s, checksum)
  }

  function Run(s: AppState, cmds: seq<Command>): AppState
    requires AllWellFormed(cmds)
    decreases |cmds|
  {
    if cmds == [] then s else Run(Step(s, cmds[0]), cmds[1..])
  }

  /** From a consistent state, every sequence of commands ends in a consistent state: never both in-progress flags. */
  lemma {:induction false} RunKeepsConsistent(s: AppState, cmds: seq<Command>)
    requires AllWellFormed(cmds)
    requires Consistent(s)
    ensures Consistent(Run(s, cmds))
    ensures AtMostOneInProgress(Run(s, cmds))
    decreases |cmds|
  {
    if cmds != [] {
      RunKeepsConsistent(Step(s, cmds[0]), cmds[1..]);
    }
  }

  /** A command other than the recompute task's own completion keeps a recompute in progress, and its target. */
  lemma StepHoldsRecompute(s: AppState, cmd: Command)
    requires WellFormed(cmd) && Consistent(s) && s.hk.recomputeInProgress
    requires !cmd.RecomputeFinished?
    ensures var r := Step(s, cmd);
            r.hk.recomputeInProgress && r.recomputeEntry == s.recomputeEntry &&
            r.childTaskTable == s.childTaskTable
  {
  }

  /**
   * Single flight: once a recompute is in progress, no sequence of commands
   * in which its task does not finish can start another child task, clear
   * the flag or change the recorded target.
   */
  lemma {:induction false} RecomputeHeldUntilFinished(s: AppState, cmds: seq<Command>)
    requires AllWellFormed(cmds)
    requires Consistent(s) && s.hk.recomputeInProgress
    requires forall i :: 0 <= i < |cmds| ==> !cmds[i].RecomputeFinished?
    ensures var r := Run(s, cmds);
            r.hk.recomputeInProgress && !r.hk.oneShotInProgress &&
            r.recomputeEntry == s.recomputeEntry && r.childTaskTable == s.childTaskTable
    decreases |cmds|
  {
    if cmds != [] {
      StepHoldsRecompute(s, cmds[0]);
      RecomputeHeldUntilFinished(Step(s, cmds[0]), cmds[1..]);
    }
  }

  /** A recompute that starts and then finishes makes report-baseline announce the new value. */
  lemma RecomputeThenReport(s: AppState, g: Segment, id: nat, value: nat)
    requires ChildTaskIdle(s)
    ensures var t := RecomputeFinishes(RecomputeBaseline(s, true, g, Created(id)), value);
            !t.hk.recomputeInProgress && ReportOf(t, g) == Reported(value)
  {
  }
}
