/*
 * Data model of the Checksum (CS) application state that the command
 * handlers of fsw/src/cs_cmds.c read and write: the housekeeping packet,
 * the child-task bookkeeping and the two code segments that have their own
 * commands (cFE core and OS).
 */
module CsTypes {

  datatype Option<T> = None | Some(value: T)

  // Table identifiers, in the order the background cycle visits them.
  const CFECORE: nat := 0
  const OSCORE: nat := 1
  const EEPROM_TABLE: nat := 2
  const MEMORY_TABLE: nat := 3
  const TABLES_TABLE: nat := 4
  const APP_TABLE: nat := 5
  const NUM_TABLES: nat := 6

  /** The six checksummed areas. */
  datatype Area = CfeCore | OsCore | Eeprom | Memory | Tables | App

  /** The table identifier of an area: its position in the round-robin order. */
  function TableId(a: Area): (id: nat)
    ensures id < NUM_TABLES
  {
    match a
    case CfeCore => CFECORE
    case OsCore => OSCORE
    case Eeprom => EEPROM_TABLE
    case Memory => MEMORY_TABLE
    case Tables => TABLES_TABLE
    case App => APP_TABLE
  }

  /**
   * The area a raw table value names, or None for a value outside the
   * six identifiers (the `default` case of the background dispatch).
   */
  function TableArea(t: nat): (r: Option<Area>)
    ensures r.Some? <==> t < NUM_TABLES
    ensures r.Some? ==> TableId(r.value) == t
  {
    if t == CFECORE then Some(CfeCore)
    else if t == OSCORE then Some(OsCore)
    else if t == EEPROM_TABLE then Some(Eeprom)
    else if t == MEMORY_TABLE then Some(Memory)
    else if t == TABLES_TABLE then Some(Tables)
    else if t == APP_TABLE then Some(App)
    else None
  }

  /** The two code segments that have their own enable, disable, report and recompute commands. */
  datatype Segment = CfeCoreSeg | OsSeg

  function SegmentArea(g: Segment): Area
  {
    match g
    case CfeCoreSeg => CfeCore
    case OsSeg => OsCore
  }

  datatype State = Enabled | Disabled

  /**
   * The partial ("temp") accumulation of an area's background checksum: how
   * far into the area the scan has got and the checksum accumulated so far.
   */
  datatype Partial = Partial(byteOffset: nat, tempChecksumValue: nat)

  const EmptyPartial: Partial := Partial(0, 0)

  /** A code-segment entry: its baseline and its partial accumulation. */
  datatype CodeSeg = CodeSeg(computedYet: bool, comparisonValue: nat, partial: Partial)

  /** The housekeeping packet fields that the command handlers use. */
  datatype HkPacket = HkPacket(
    cmdCounter: nat,
    cmdErrCounter: nat,
    checksumState: State,
    cfeCoreCSState: State,
    osCSState: State,
    eepromCSErrCounter: nat,
    memoryCSErrCounter: nat,
    tablesCSErrCounter: nat,
    appCSErrCounter: nat,
    cfeCoreCSErrCounter: nat,
    osCSErrCounter: nat,
    currentCSTable: nat,
    currentEntryInTable: nat,
    passCounter: nat,
    recomputeInProgress: bool,
    oneShotInProgress: bool,
    lastOneShotAddress: nat,
    lastOneShotSize: nat,
    lastOneShotMaxBytesPerCycle: nat,
    lastOneShotChecksum: nat)

  /**
   * The whole application state the handlers touch. `recomputeEntry` stands
   * for the pointer to the entry a recompute child task works on; the four
   * table-driven areas keep one summary partial accumulation each.
   */
  datatype AppState = AppState(
    hk: HkPacket,
    childTaskID: nat,
    childTaskTable: nat,
    childTaskEntryID: nat,
    recomputeEntry: Option<Segment>,
    maxBytesPerCycle: nat,
    cfeCoreCodeSeg: CodeSeg,
    osCodeSeg: CodeSeg,
    eepromTemp: Partial,
    memoryTemp: Partial,
    tablesTemp: Partial,
    appTemp: Partial)

  /** What the host returned when asked to create a child task. */
  datatype CreateStatus = Created(taskId: nat) | CreateFailed(status: int)

  /** The arguments of a one-shot command. */
  datatype OneShotRequest = OneShotRequest(address: nat, size: nat, maxBytesPerCycle: nat)

  /** What a report-baseline command announces. */
  datatype BaselineReport = Reported(value: nat) | NotComputedYet

  /** The background cursor: table, entry within the table, and completed passes. */
  datatype Cursor = Cursor(table: nat, entry: nat, pass: nat)

  /** What one per-area background worker call returns: its "done with this cycle" flag and the cursor it leaves. */
  datatype WorkerStep = WorkerStep(done: bool, next: Cursor)

  /** The six per-area background workers, as an oracle over the area dispatched to and the cursor. */
  type Workers = (Area, Cursor) -> WorkerStep
}
