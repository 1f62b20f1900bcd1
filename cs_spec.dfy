/*
 * The effect of each command handler of fsw/src/cs_cmds.c on the
 * application state, as functions from the state before the command (and
 * the outcomes of the host services it calls) to the state after it. The
 * class in cs_cmds.dfy is proved against these functions.
 */
module CsSpec {
  import opened CsTypes

  // ---------------------------------------------------------------------
  // Observations and frames
  // ---------------------------------------------------------------------

  /** No child task is recomputing a baseline or computing a one-shot checksum. */
  predicate ChildTaskIdle(s: AppState)
  {
    !s.hk.recomputeInProgress && !s.hk.oneShotInProgress
  }

  /** At most one of the two in-progress flags is set. */
  predicate AtMostOneInProgress(s: AppState)
  {
    !(s.hk.recomputeInProgress && s.hk.oneShotInProgress)
  }

  /**
   * The arbitration invariant: at most one in-progress flag, and a recompute
   * in progress always has its target recorded (table and entry).
   */
  predicate Consistent(s: AppState)
  {
    AtMostOneInProgress(s) &&
    (s.hk.recomputeInProgress ==>
       s.recomputeEntry.Some? && s.childTaskTable == TableId(SegmentArea(s.recomputeEntry.value)))
  }

  function SegmentOf(s: AppState, g: Segment): CodeSeg
  {
    match g
    case CfeCoreSeg => s.cfeCoreCodeSeg
    case OsSeg => s.osCodeSeg
  }

  /** The enable state of a code segment, as kept in the housekeeping packet. */
  function SegmentState(h: HkPacket, g: Segment): State
  {
    match g
    case CfeCoreSeg => h.cfeCoreCSState
    case OsSeg => h.osCSState
  }

  function PartialOf(s: AppState, a: Area): Partial
  {
    match a
    case CfeCore => s.cfeCoreCodeSeg.partial
    case OsCore => s.osCodeSeg.partial
    case Eeprom => s.eepromTemp
    case Memory => s.memoryTemp
    case Tables => s.tablesTemp
    case App => s.appTemp
  }

  /** The state with every partial accumulation forgotten: what a disable command must leave alone. */
  function WithoutPartials(s: AppState): AppState
  {
    s.(cfeCoreCodeSeg := s.cfeCoreCodeSeg.(partial := EmptyPartial),
       osCodeSeg := s.osCodeSeg.(partial := EmptyPartial),
       eepromTemp := EmptyPartial, memoryTemp := EmptyPartial,
       tablesTemp := EmptyPartial, appTemp := EmptyPartial)
  }

  function CursorOf(s: AppState): Cursor
  {
    Cursor(s.hk.currentCSTable, s.hk.currentEntryInTable, s.hk.passCounter)
  }

  /** t and s agree everywhere except, possibly, on the two command counters. */
  predicate SameExceptCmdCounters(s: AppState, t: AppState)
  {
    t.(hk := t.hk.(cmdCounter := s.hk.cmdCounter, cmdErrCounter := s.hk.cmdErrCounter)) == s
  }

  /** The only effect from s to t is one more accepted command. */
  predicate OnlyCmdCounted(s: AppState, t: AppState)
  {
    SameExceptCmdCounters(s, t) &&
    t.hk.cmdCounter == s.hk.cmdCounter + 1 && t.hk.cmdErrCounter == s.hk.cmdErrCounter
  }

  /** The only effect from s to t is one more rejected command. */
  predicate OnlyErrCounted(s: AppState, t: AppState)
  {
    SameExceptCmdCounters(s, t) &&
    t.hk.cmdCounter == s.hk.cmdCounter && t.hk.cmdErrCounter == s.hk.cmdErrCounter + 1
  }

  function CountCmd(s: AppState): AppState
  {
    s.(hk := s.hk.(cmdCounter := s.hk.cmdCounter + 1))
  }

  function CountErr(s: AppState): AppState
  {
    s.(hk := s.hk.(cmdErrCounter := s.hk.cmdErrCounter + 1))
  }

  // ---------------------------------------------------------------------
  // The abstract zeroing routines (their bodies are outside this model)
  // ---------------------------------------------------------------------

  /** Discards the partial accumulation of one area and nothing else. */
  function ZeroTempValues(s: AppState, a: Area): (r: AppState)
    ensures PartialOf(r, a) == EmptyPartial
    ensures forall b :: b != a ==> PartialOf(r, b) == PartialOf(s, b)
    ensures WithoutPartials(r) == WithoutPartials(s)
  {
    match a
    case CfeCore => s.(cfeCoreCodeSeg := s.cfeCoreCodeSeg.(partial := EmptyPartial))
    case OsCore => s.(osCodeSeg := s.osCodeSeg.(partial := EmptyPartial))
    case Eeprom => s.(eepromTemp := EmptyPartial)
    case Memory => s.(memoryTemp := EmptyPartial)
    case Tables => s.(tablesTemp := EmptyPartial)
    case App => s.(appTemp := EmptyPartial)
  }

  // ---------------------------------------------------------------------
  // Read-only commands: no-op and report-baseline
  // ---------------------------------------------------------------------

  /**
   * The state effect of a command that only reads: a command of the right
   * length is counted, a command of the wrong length changes nothing.
   */
  function Acknowledge(s: AppState, lengthOk: bool): (r: AppState)
    ensures lengthOk ==> OnlyCmdCounted(s, r)
    ensures !lengthOk ==> r == s
  {
    if lengthOk then CountCmd(s) else s
  }

  /** What report-baseline announces for a code segment: its baseline iff it has been computed. */
  function ReportOf(s: AppState, g: Segment): (r: BaselineReport)
    ensures r.Reported? <==> SegmentOf(s, g).computedYet
    ensures r.Reported? ==> r.value == SegmentOf(s, g).comparisonValue
  {
    var seg := SegmentOf(s, g);
    if seg.computedYet then Reported(seg.comparisonValue) else NotComputedYet
  }

  // ---------------------------------------------------------------------
  // Reset counters
  // ---------------------------------------------------------------------

  predicate CountersCleared(h: HkPacket)
  {
    h.cmdCounter == 0 && h.cmdErrCounter == 0 &&
    h.eepromCSErrCounter == 0 && h.memoryCSErrCounter == 0 &&
    h.tablesCSErrCounter == 0 && h.appCSErrCounter == 0 &&
    h.cfeCoreCSErrCounter == 0 && h.osCSErrCounter == 0 &&
    h.passCounter == 0
  }

  /** t and s agree everywhere except on the nine counters that reset clears. */
  predicate SameExceptCounters(s: AppState, t: AppState)
  {
    t.(hk := t.hk.(cmdCounter := s.hk.cmdCounter, cmdErrCounter := s.hk.cmdErrCounter,
                   eepromCSErrCounter := s.hk.eepromCSErrCounter,
                   memoryCSErrCounter := s.hk.memoryCSErrCounter,
                   tablesCSErrCounter := s.hk.tablesCSErrCounter,
                   appCSErrCounter := s.hk.appCSErrCounter,
                   cfeCoreCSErrCounter := s.hk.cfeCoreCSErrCounter,
                   osCSErrCounter := s.hk.osCSErrCounter,
                   passCounter := s.hk.passCounter)) == s
  }

  function Reset(s: AppState, lengthOk: bool): (r: AppState)
    ensures !lengthOk ==> r == s
    ensures lengthOk ==> CountersCleared(r.hk) && SameExceptCounters(s, r)
  {
    if !lengthOk then s
    else
      var h := s.hk.(cmdCounter := 0, cmdErrCounter := 0);
      var h := h.(eepromCSErrCounter := 0, memoryCSErrCounter := 0,
                  tablesCSErrCounter := 0, appCSErrCounter := 0,
                  cfeCoreCSErrCounter := 0, osCSErrCounter := 0);
      s.(hk := h.(passCounter := 0))
  }

  // ---------------------------------------------------------------------
  // Enable and disable
  // ---------------------------------------------------------------------

  function DisableAll(s: AppState, lengthOk: bool): (r: AppState)
    ensures !lengthOk ==> r == s
    ensures lengthOk ==> r.hk.checksumState == Disabled
    ensures lengthOk ==> forall a :: PartialOf(r, a) == EmptyPartial
    ensures lengthOk ==> OnlyCmdCounted(WithoutPartials(s).(hk := s.hk.(checksumState := Disabled)), WithoutPartials(r))
  {
    if !lengthOk then s
    else
      var t := s.(hk := s.hk.(checksumState := Disabled));
      var t := ZeroTempValues(t, Eeprom);
      var t := ZeroTempValues(t, Memory);
      var t := ZeroTempValues(t, Tables);
      var t := ZeroTempValues(t, App);
      var t := ZeroTempValues(t, CfeCore);
      var t := ZeroTempValues(t, OsCore);
      CountCmd(t)
  }

  function EnableAll(s: AppState, lengthOk: bool): (r: AppState)
    ensures !lengthOk ==> r == s
    ensures lengthOk ==> r.hk.checksumState == Enabled
    ensures lengthOk ==> OnlyCmdCounted(s.(hk := s.hk.(checksumState := Enabled)), r)
  {
    if !lengthOk then s
    else CountCmd(s.(hk := s.hk.(checksumState := Enabled)))
  }

  function SetSegmentState(h: HkPacket, g: Segment, st: State): (r: HkPacket)
    ensures SegmentState(r, g) == st
    ensures forall g' :: g' != g ==> SegmentState(r, g') == SegmentState(h, g')
    ensures r.(cfeCoreCSState := h.cfeCoreCSState, osCSState := h.osCSState) == h
  {
    match g
    case CfeCoreSeg => h.(cfeCoreCSState := st)
    case OsSeg => h.(osCSState := st)
  }

  /** Disable background checking of one code segment and discard only its partial accumulation. */
  function DisableSegment(s: AppState, lengthOk: bool, g: Segment): (r: AppState)
    ensures !lengthOk ==> r == s
    ensures lengthOk ==> SegmentState(r.hk, g) == Disabled
    ensures lengthOk ==> PartialOf(r, SegmentArea(g)) == EmptyPartial
    ensures lengthOk ==> forall a :: a != SegmentArea(g) ==> PartialOf(r, a) == PartialOf(s, a)
    ensures lengthOk ==> OnlyCmdCounted(WithoutPartials(s).(hk := SetSegmentState(s.hk, g, Disabled)), WithoutPartials(r))
  {
    if !lengthOk then s
    else
      var t := s.(hk := SetSegmentState(s.hk, g, Disabled));
      var t := ZeroTempValues(t, SegmentArea(g));
      CountCmd(t)
  }

  function EnableSegment(s: AppState, lengthOk: bool, g: Segment): (r: AppState)
    ensures !lengthOk ==> r == s
    ensures lengthOk ==> SegmentState(r.hk, g) == Enabled
    ensures lengthOk ==> OnlyCmdCounted(s.(hk := SetSegmentState(s.hk, g, Enabled)), r)
  {
    if !lengthOk then s
    else CountCmd(s.(hk := SetSegmentState(s.hk, g, Enabled)))
  }

  // ---------------------------------------------------------------------
  // The single-flight gate: recompute, one-shot, cancel
  // ---------------------------------------------------------------------

  /**
   * Recompute the baseline of a code segment. Admitted only when no child
   * task is in progress; creation failure clears the flag again but leaves
   * the recorded target in place. The task ID is never recorded.
   */
  function RecomputeBaseline(s: AppState, lengthOk: bool, g: Segment, create: CreateStatus): (r: AppState)
    ensures !lengthOk ==> r == s
    ensures lengthOk && !ChildTaskIdle(s) ==> OnlyErrCounted(s, r)
    ensures lengthOk && ChildTaskIdle(s) ==>
      r.childTaskTable == TableId(SegmentArea(g)) && r.childTaskEntryID == 0 && r.recomputeEntry == Some(g)
    ensures lengthOk && ChildTaskIdle(s) ==>
      (r.hk.recomputeInProgress <==> create.Created?) && !r.hk.oneShotInProgress
    ensures lengthOk && ChildTaskIdle(s) && create.Created? ==>
      r.hk.cmdCounter == s.hk.cmdCounter + 1 && r.hk.cmdErrCounter == s.hk.cmdErrCounter
    ensures lengthOk && ChildTaskIdle(s) && create.CreateFailed? ==>
      r.hk.cmdCounter == s.hk.cmdCounter && r.hk.cmdErrCounter == s.hk.cmdErrCounter + 1
    ensures r.childTaskID == s.childTaskID
    ensures r.(hk := s.hk, childTaskTable := s.childTaskTable, childTaskEntryID := s.childTaskEntryID,
               recomputeEntry := s.recomputeEntry) == s
    ensures r.hk.(cmdCounter := s.hk.cmdCounter, cmdErrCounter := s.hk.cmdErrCounter,
                  recomputeInProgress := s.hk.recomputeInProgress) == s.hk
    ensures Consistent(s) ==> Consistent(r)
  {
    if !lengthOk then s
    else if !ChildTaskIdle(s) then CountErr(s)
    else
      var t := s.(hk := s.hk.(recomputeInProgress := true));
      var t := t.(childTaskTable := TableId(SegmentArea(g)), childTaskEntryID := 0, recomputeEntry := Some(g));
      match create
      case Created(_) => CountCmd(t)
      case CreateFailed(_) =>
        var t := CountErr(t);
        t.(hk := t.hk.(recomputeInProgress := false))
  }

  /** The byte budget a one-shot runs with: the command's own, or the application default when it asks for 0. */
  function OneShotBudget(requested: nat, default: nat): nat
  {
    if requested == 0 then default else requested
  }

  /**
   * Start a one-shot checksum. A range the memory check rejects, or a busy
   * child task, only counts an error. Once admitted the request is recorded
   * whether or not the child task can be created.
   */
  function OneShot(s: AppState, lengthOk: bool, rangeOk: bool, req: OneShotRequest, create: CreateStatus): (r: AppState)
    ensures !lengthOk ==> r == s
    ensures lengthOk && !rangeOk ==> OnlyErrCounted(s, r)
    ensures lengthOk && rangeOk && !ChildTaskIdle(s) ==> OnlyErrCounted(s, r)
    ensures lengthOk && rangeOk && ChildTaskIdle(s) ==>
      r.hk.lastOneShotAddress == req.address && r.hk.lastOneShotSize == req.size &&
      (req.maxBytesPerCycle == 0 ==> r.hk.lastOneShotMaxBytesPerCycle == s.maxBytesPerCycle) &&
      (req.maxBytesPerCycle != 0 ==> r.hk.lastOneShotMaxBytesPerCycle == req.maxBytesPerCycle) &&
      r.hk.lastOneShotChecksum == 0 && !r.hk.recomputeInProgress
    ensures lengthOk && rangeOk && ChildTaskIdle(s) && create.Created? ==>
      r.hk.oneShotInProgress && r.childTaskID == create.taskId &&
      r.hk.cmdCounter == s.hk.cmdCounter + 1 && r.hk.cmdErrCounter == s.hk.cmdErrCounter
    ensures lengthOk && rangeOk && ChildTaskIdle(s) && create.CreateFailed? ==>
      !r.hk.oneShotInProgress && r.childTaskID == s.childTaskID &&
      r.hk.cmdCounter == s.hk.cmdCounter && r.hk.cmdErrCounter == s.hk.cmdErrCounter + 1
    ensures r.(hk := s.hk, childTaskID := s.childTaskID) == s
    ensures r.hk.(cmdCounter := s.hk.cmdCounter, cmdErrCounter := s.hk.cmdErrCounter,
                  recomputeInProgress := s.hk.recomputeInProgress,
                  oneShotInProgress := s.hk.oneShotInProgress,
                  lastOneShotAddress := s.hk.lastOneShotAddress,
                  lastOneShotSize := s.hk.lastOneShotSize,
                  lastOneShotMaxBytesPerCycle := s.hk.lastOneShotMaxBytesPerCycle,
                  lastOneShotChecksum := s.hk.lastOneShotChecksum) == s.hk
    ensures Consistent(s) ==> Consistent(r)
  {
    if !lengthOk then s
    else if !rangeOk then CountErr(s)
    else if !ChildTaskIdle(s) then CountErr(s)
    else
      var h := s.hk.(recomputeInProgress := false, oneShotInProgress := true);
      var h := h.(lastOneShotAddress := req.address, lastOneShotSize := req.size);
      var h := h.(lastOneShotMaxBytesPerCycle := OneShotBudget(req.maxBytesPerCycle, s.maxBytesPerCycle));
      var t := s.(hk := h.(lastOneShotChecksum := 0));
      match create
      case Created(id) => CountCmd(t.(childTaskID := id))
      case CreateFailed(_) =>
        var t := CountErr(t);
        t.(hk := t.hk.(recomputeInProgress := false, oneShotInProgress := false))
  }

  /**
   * Cancel a one-shot: only when a one-shot (and no recompute) is in
   * progress; a failed deletion counts an error and changes nothing else.
   */
  function CancelOneShot(s: AppState, lengthOk: bool, deleteOk: bool): (r: AppState)
    ensures !lengthOk ==> r == s
    ensures lengthOk && !(s.hk.oneShotInProgress && !s.hk.recomputeInProgress) ==> OnlyErrCounted(s, r)
    ensures lengthOk && s.hk.oneShotInProgress && !s.hk.recomputeInProgress && !deleteOk ==> OnlyErrCounted(s, r)
    ensures lengthOk && s.hk.oneShotInProgress && !s.hk.recomputeInProgress && deleteOk ==>
      r.childTaskID == 0 && ChildTaskIdle(r) &&
      r.hk.cmdCounter == s.hk.cmdCounter + 1 && r.hk.cmdErrCounter == s.hk.cmdErrCounter &&
      r.(hk := s.hk, childTaskID := s.childTaskID) == s &&
      r.hk.(cmdCounter := s.hk.cmdCounter, oneShotInProgress := s.hk.oneShotInProgress) == s.hk
    ensures Consistent(s) ==> Consistent(r)
  {
    if !lengthOk then s
    else if !s.hk.recomputeInProgress && s.hk.oneShotInProgress then
      if deleteOk then
        var t := s.(childTaskID := 0);
        var t := t.(hk := t.hk.(recomputeInProgress := false, oneShotInProgress := false));
        CountCmd(t)
      else CountErr(s)
    else CountErr(s)
  }

  // ---------------------------------------------------------------------
  // The background cycle
  // ---------------------------------------------------------------------

  /**
   * The assumption about the six per-area background workers: called on a
   * table before the last one, a worker either reports that the cycle is
   * done or moves the table cursor strictly forward. Nothing is assumed of
   * the last (App) worker, which may wrap the cursor.
   */
  ghost predicate AdvancesOrDone(w: Workers)
  {
    forall a: Area, c: Cursor {:trigger w(a, c)} ::
      TableId(a) == c.table && c.table < NUM_TABLES - 1 ==> w(a, c).done || w(a, c).next.table > c.table
  }

  /** The worker the dispatch selects for a valid cursor, applied to it. */
  function Dispatch(w: Workers, c: Cursor): WorkerStep
    requires c.table < NUM_TABLES
  {
    w(TableArea(c.table).value, c)
  }

  function Min(x: nat, y: nat): nat
  {
    if x <= y then x else y
  }

  /** The end cursor of one background cycle and the cursors at which workers were called, in order. */
  datatype CycleRun = CycleRun(final: Cursor, calls: seq<Cursor>)

  /**
   * One background cycle from cursor c: dispatch on the table; stop once a
   * worker says it is done or the iteration began at or past the last
   * table; an unknown table resets the cursor and counts a pass.
   */
  function Cycle(c: Cursor, w: Workers): (r: CycleRun)
    requires AdvancesOrDone(w)
    ensures |r.calls| <= NUM_TABLES - Min(c.table, NUM_TABLES)
    ensures forall i :: 0 <= i < |r.calls| ==> c.table <= r.calls[i].table < NUM_TABLES
    ensures c.table >= NUM_TABLES ==> r.final == Cursor(0, 0, c.pass + 1) && r.calls == []
    decreases NUM_TABLES - Min(c.table, NUM_TABLES)
  {
    match TableArea(c.table)
    case None => CycleRun(Cursor(0, 0, c.pass + 1), [])
    case Some(a) =>
      var step := w(a, c);
      if step.done || c.table >= NUM_TABLES - 1 then CycleRun(step.next, [c])
      else
        var rest := Cycle(step.next, w);
        CycleRun(rest.final, [c] + rest.calls)
  }

  function WithCursor(s: AppState, c: Cursor): AppState
  {
    s.(hk := s.hk.(currentCSTable := c.table, currentEntryInTable := c.entry, passCounter := c.pass))
  }

  /**
   * The background-cycle command: nothing happens on a length mismatch,
   * when checksumming is disabled or while a child task is in progress;
   * otherwise the cursor and pass counter become those the cycle ends with.
   */
  function BackgroundCheckCycle(s: AppState, actualLength: nat, expectedLength: nat, w: Workers): (r: AppState)
    requires AdvancesOrDone(w)
    ensures actualLength != expectedLength || s.hk.checksumState != Enabled || !ChildTaskIdle(s) ==> r == s
    ensures WithCursor(s, CursorOf(r)) == r
    ensures (actualLength == expectedLength && s.hk.checksumState == Enabled && ChildTaskIdle(s) &&
             s.hk.currentCSTable >= NUM_TABLES) ==> CursorOf(r) == Cursor(0, 0, s.hk.passCounter + 1)
    ensures Consistent(s) ==> Consistent(r)
  {
    if actualLength != expectedLength then s
    else if s.hk.checksumState != Enabled then s
    else if !ChildTaskIdle(s) then s
    else WithCursor(s, Cycle(CursorOf(s), w).final)
  }
}
