/*
 * The command handlers of fsw/src/cs_cmds.c as methods of the application
 * object, updating its fields in place in the order the handlers do. The
 * outcome of every host service a handler calls (command length check,
 * child-task creation and deletion, memory-range validation, the background
 * workers) is a parameter. Each method is proved to leave exactly the state
 * that the matching function of CsSpec describes.
 */
module CsCmds {
  import opened CsTypes
  import opened CsSpec

  class CsApp {
    var hk: HkPacket
    var childTaskID: nat
    var childTaskTable: nat
    var childTaskEntryID: nat
    var recomputeEntry: Option<Segment>
    var maxBytesPerCycle: nat
    var cfeCoreCodeSeg: CodeSeg
    var osCodeSeg: CodeSeg
    var eepromTemp: Partial
    var memoryTemp: Partial
    var tablesTemp: Partial
    var appTemp: Partial

    /** The value of the whole application state. */
    function Snapshot(): AppState
      reads this
    {
      AppState(hk, childTaskID, childTaskTable, childTaskEntryID, recomputeEntry, maxBytesPerCycle,
               cfeCoreCodeSeg, osCodeSeg, eepromTemp, memoryTemp, tablesTemp, appTemp)
    }

    constructor (init: AppState)
      ensures Snapshot() == init
    {
      hk := init.hk;
      childTaskID := init.childTaskID;
      childTaskTable := init.childTaskTable;
      childTaskEntryID := init.childTaskEntryID;
      recomputeEntry := init.recomputeEntry;
      maxBytesPerCycle := init.maxBytesPerCycle;
      cfeCoreCodeSeg := init.cfeCoreCodeSeg;
      osCodeSeg := init.osCodeSeg;
      eepromTemp := init.eepromTemp;
      memoryTemp := init.memoryTemp;
      tablesTemp := init.tablesTemp;
      appTemp := init.appTemp;
    }

    /** The effect of the per-area zeroing routine: that area's partial accumulation is discarded. */
    method ZeroTempValuesOf(a: Area)
      modifies this
      ensures Snapshot() == ZeroTempValues(old(Snapshot()), a)
    {
      match a
      case CfeCore => cfeCoreCodeSeg := cfeCoreCodeSeg.(partial := EmptyPartial);
      case OsCore => osCodeSeg := osCodeSeg.(partial := EmptyPartial);
      case Eeprom => eepromTemp := EmptyPartial;
      case Memory => memoryTemp := EmptyPartial;
      case Tables => tablesTemp := EmptyPartial;
      case App => appTemp := EmptyPartial;
    }

    method NoopCmd(lengthOk: bool)
      modifies this
      ensures Snapshot() == Acknowledge(old(Snapshot()), lengthOk)
    {
      if lengthOk {
        hk := hk.(cmdCounter := hk.cmdCounter + 1);
      }
    }

    method ResetCmd(lengthOk: bool)
      modifies this
      ensures Snapshot() == Reset(old(Snapshot()), lengthOk)
    {
      if lengthOk {
        hk := hk.(cmdCounter := 0);
        hk := hk.(cmdErrCounter := 0);
        hk := hk.(eepromCSErrCounter := 0);
        hk := hk.(memoryCSErrCounter := 0);
        hk := hk.(tablesCSErrCounter := 0);
        hk := hk.(appCSErrCounter := 0);
        hk := hk.(cfeCoreCSErrCounter := 0);
        hk := hk.(osCSErrCounter := 0);
        hk := hk.(passCounter := 0);
      }
    }

    /**
     * One background cycle. The length is checked inline against the
     * expected size, and a mismatch changes nothing. The loop dispatches on
     * the current table until a worker reports the cycle done or the
     * iteration that began at or past the last table has run.
     */
    method BackgroundCheckCycle(actualLength: nat, expectedLength: nat, workers: Workers)
      requires AdvancesOrDone(workers)
      modifies this
      ensures Snapshot() == CsSpec.BackgroundCheckCycle(old(Snapshot()), actualLength, expectedLength, workers)
    {
      var doneWithCycle := false;
      var endOfList := false;
      if actualLength != expectedLength {
        // length error: reported, nothing counted
      } else if hk.checksumState == Enabled {
        ghost var start := CursorOf(Snapshot());
        ghost var skipped := false;
        if hk.recomputeInProgress || hk.oneShotInProgress {
          doneWithCycle := true;
          skipped := true;
        }
        while !doneWithCycle && !endOfList
          invariant Snapshot() == WithCursor(old(Snapshot()), CursorOf(Snapshot()))
          invariant skipped <==> !ChildTaskIdle(old(Snapshot()))
          invariant skipped ==> doneWithCycle && CursorOf(Snapshot()) == start
          invariant !skipped && !doneWithCycle && !endOfList ==>
            Cycle(CursorOf(Snapshot()), workers).final == Cycle(start, workers).final
          invariant !skipped && (doneWithCycle || endOfList) ==>
            CursorOf(Snapshot()) == Cycle(start, workers).final
          decreases if doneWithCycle || endOfList then 0 else NUM_TABLES + 1 - Min(hk.currentCSTable, NUM_TABLES)
        {
          if hk.currentCSTable >= NUM_TABLES - 1 {
            endOfList := true;
          }
          var cursor := Cursor(hk.currentCSTable, hk.currentEntryInTable, hk.passCounter);
          match TableArea(hk.currentCSTable)
          case Some(area) =>
            var step := workers(area, cursor);
            hk := hk.(currentCSTable := step.next.table, currentEntryInTable := step.next.entry,
                      passCounter := step.next.pass);
            doneWithCycle := step.done;
          case None =>
            hk := hk.(currentCSTable := 0);
            hk := hk.(currentEntryInTable := 0);
            hk := hk.(passCounter := hk.passCounter + 1);
            doneWithCycle := true;
        }
      }
    }

    method DisableAllCSCmd(lengthOk: bool)
      modifies this
      ensures Snapshot() == DisableAll(old(Snapshot()), lengthOk)
    {
      if lengthOk {
        hk := hk.(checksumState := Disabled);
        ZeroTempValuesOf(Eeprom);
        ZeroTempValuesOf(Memory);
        ZeroTempValuesOf(Tables);
        ZeroTempValuesOf(App);
        ZeroTempValuesOf(CfeCore);
        ZeroTempValuesOf(OsCore);
        hk := hk.(cmdCounter := hk.cmdCounter + 1);
      }
    }

    method EnableAllCSCmd(lengthOk: bool)
      modifies this
      ensures Snapshot() == EnableAll(old(Snapshot()), lengthOk)
    {
      if lengthOk {
        hk := hk.(checksumState := Enabled);
        hk := hk.(cmdCounter := hk.cmdCounter + 1);
      }
    }

    /** The shared body of the two segment-disable handlers. */
    method DisableSegmentCmd(lengthOk: bool, g: Segment)
      modifies this
      ensures Snapshot() == DisableSegment(old(Snapshot()), lengthOk, g)
    {
      if lengthOk {
        hk := SetSegmentState(hk, g, Disabled);
        ZeroTempValuesOf(SegmentArea(g));
        hk := hk.(cmdCounter := hk.cmdCounter + 1);
      }
    }

    /** The shared body of the two segment-enable handlers. */
    method EnableSegmentCmd(lengthOk: bool, g: Segment)
      modifies this
      ensures Snapshot() == EnableSegment(old(Snapshot()), lengthOk, g)
    {
      if lengthOk {
        hk := SetSegmentState(hk, g, Enabled);
        hk := hk.(cmdCounter := hk.cmdCounter + 1);
      }
    }

    method DisableCfeCoreCmd(lengthOk: bool)
      modifies this
      ensures Snapshot() == DisableSegment(old(Snapshot()), lengthOk, CfeCoreSeg)
    {
      DisableSegmentCmd(lengthOk, CfeCoreSeg);
    }

    method EnableCfeCoreCmd(lengthOk: bool)
      modifies this
      ensures Snapshot() == EnableSegment(old(Snapshot()), lengthOk, CfeCoreSeg)
    {
      EnableSegmentCmd(lengthOk, CfeCoreSeg);
    }

    method DisableOSCmd(lengthOk: bool)
      modifies this
      ensures Snapshot() == DisableSegment(old(Snapshot()), lengthOk, OsSeg)
    {
      DisableSegmentCmd(lengthOk, OsSeg);
    }

    method EnableOSCmd(lengthOk: bool)
      modifies this
      ensures Snapshot() == EnableSegment(old(Snapshot()), lengthOk, OsSeg)
    {
      EnableSegmentCmd(lengthOk, OsSeg);
    }

    /**
     * The shared body of the two report handlers. `report` is the event sent:
     * None when the length check fails and no event is sent by this handler.
     */
    method ReportBaselineCmd(lengthOk: bool, g: Segment) returns (report: Option<BaselineReport>)
      modifies this
      ensures report == if lengthOk then Some(ReportOf(old(Snapshot()), g)) else None
      ensures Snapshot() == Acknowledge(old(Snapshot()), lengthOk)
    {
      report := None;
      if lengthOk {
        var seg := if g.CfeCoreSeg? then cfeCoreCodeSeg else osCodeSeg;
        if seg.computedYet {
          report := Some(Reported(seg.comparisonValue));
        } else {
          report := Some(NotComputedYet);
        }
        hk := hk.(cmdCounter := hk.cmdCounter + 1);
      }
    }

    method ReportBaselineCfeCoreCmd(lengthOk: bool) returns (report: Option<BaselineReport>)
      modifies this
      ensures report == if lengthOk then Some(ReportOf(old(Snapshot()), CfeCoreSeg)) else None
      ensures Snapshot() == Acknowledge(old(Snapshot()), lengthOk)
    {
      report := ReportBaselineCmd(lengthOk, CfeCoreSeg);
    }

    method ReportBaselineOSCmd(lengthOk: bool) returns (report: Option<BaselineReport>)
      modifies this
      ensures report == if lengthOk then Some(ReportOf(old(Snapshot()), OsSeg)) else None
      ensures Snapshot() == Acknowledge(old(Snapshot()), lengthOk)
    {
      report := ReportBaselineCmd(lengthOk, OsSeg);
    }

    /** The shared body of the two recompute handlers. */
    method RecomputeBaselineCmd(lengthOk: bool, g: Segment, create: CreateStatus)
      modifies this
      ensures Snapshot() == RecomputeBaseline(old(Snapshot()), lengthOk, g, create)
    {
      if lengthOk {
        if !hk.recomputeInProgress && !hk.oneShotInProgress {
          hk := hk.(recomputeInProgress := true);
          childTaskTable := TableId(SegmentArea(g));
          childTaskEntryID := 0;
          recomputeEntry := Some(g);
          if create.Created? {
            hk := hk.(cmdCounter := hk.cmdCounter + 1);
          } else {
            hk := hk.(cmdErrCounter := hk.cmdErrCounter + 1);
            hk := hk.(recomputeInProgress := false);
          }
        } else {
          hk := hk.(cmdErrCounter := hk.cmdErrCounter + 1);
        }
      }
    }

    method RecomputeBaselineCfeCoreCmd(lengthOk: bool, create: CreateStatus)
      modifies this
      ensures Snapshot() == RecomputeBaseline(old(Snapshot()), lengthOk, CfeCoreSeg, create)
    {
      RecomputeBaselineCmd(lengthOk, CfeCoreSeg, create);
    }

    method RecomputeBaselineOSCmd(lengthOk: bool, create: CreateStatus)
      modifies this
      ensures Snapshot() == RecomputeBaseline(old(Snapshot()), lengthOk, OsSeg, create)
    {
      RecomputeBaselineCmd(lengthOk, OsSeg, create);
    }

    method OneShotCmd(lengthOk: bool, rangeOk: bool, req: OneShotRequest, create: CreateStatus)
      modifies this
      ensures Snapshot() == OneShot(old(Snapshot()), lengthOk, rangeOk, req, create)
    {
      if lengthOk {
        if rangeOk {
          if !hk.recomputeInProgress && !hk.oneShotInProgress {
            hk := hk.(recomputeInProgress := false);
            hk := hk.(oneShotInProgress := true);
            hk := hk.(lastOneShotAddress := req.address);
            hk := hk.(lastOneShotSize := req.size);
            if req.maxBytesPerCycle == 0 {
              hk := hk.(lastOneShotMaxBytesPerCycle := maxBytesPerCycle);
            } else {
              hk := hk.(lastOneShotMaxBytesPerCycle := req.maxBytesPerCycle);
            }
            hk := hk.(lastOneShotChecksum := 0);
            match create
            case Created(id) =>
              childTaskID := id;
              hk := hk.(cmdCounter := hk.cmdCounter + 1);
            case CreateFailed(_) =>
              hk := hk.(cmdErrCounter := hk.cmdErrCounter + 1);
              hk := hk.(recomputeInProgress := false);
              hk := hk.(oneShotInProgress := false);
          } else {
            hk := hk.(cmdErrCounter := hk.cmdErrCounter + 1);
          }
        } else {
          hk := hk.(cmdErrCounter := hk.cmdErrCounter + 1);
        }
      }
    }

    /**
     * Cancel a one-shot. `deleted` is the task ID deletion was requested
     * for, or None when no deletion was requested.
     */
    method CancelOneShotCmd(lengthOk: bool, deleteOk: bool) returns (deleted: Option<nat>)
      modifies this
      ensures deleted == if lengthOk && !old(hk.recomputeInProgress) && old(hk.oneShotInProgress)
                         then Some(old(childTaskID)) else None
      ensures Snapshot() == CancelOneShot(old(Snapshot()), lengthOk, deleteOk)
    {
      deleted := None;
      if lengthOk {
        if !hk.recomputeInProgress && hk.oneShotInProgress {
          deleted := Some(childTaskID);
          if deleteOk {
            childTaskID := 0;
            hk := hk.(recomputeInProgress := false);
            hk := hk.(oneShotInProgress := false);
            hk := hk.(cmdCounter := hk.cmdCounter + 1);
          } else {
            hk := hk.(cmdErrCounter := hk.cmdErrCounter + 1);
          }
        } else {
          hk := hk.(cmdErrCounter := hk.cmdErrCounter + 1);
        }
      }
    }
  }
}
