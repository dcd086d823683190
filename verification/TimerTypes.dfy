/** The values the timer wheel of `rusty_box/src/pc_system.rs` is made of. */
module TimerTypes {

  import opened Base

  const MAX_LAPICS: nat := 254
  const MAX_TIMERS: nat := MAX_LAPICS + 21
  const NULL_INTERVAL: nat := 0xFFFF_FFFF
  const MIN_PERIOD: nat := 1
  const ID_LEN: nat := 32

  /** Which device a timer belongs to; what a fire is dispatched on. */
  datatype Owner =
    | NullTimer
    | PciIdeCh0
    | PciIdeCh1
    | Pit
    | Keyboard
    | CmosPeriodic
    | CmosOneSecond
    | CmosUip
    | AcpiPmOverflow
    | SerialFifo(port: nat)
    | SerialTx(txPort: nat)
    | Lapic(cpu: nat)
    | Slowdown
    | HdSeek(param: nat)
    | Hpet(index: nat)
    | VgaVertical

  datatype Timer = Timer(
    inUse: bool,
    active: bool,
    continuous: bool,
    period: nat,
    deadline: nat,
    owner: Owner,
    id: seq<byte>)

  function ZeroId(): (id: seq<byte>)
    ensures |id| == ID_LEN
  {
    seq(ID_LEN, _ => 0)
  }

  function EmptySlot(): Timer {
    Timer(false, false, false, 0, 0, NullTimer, ZeroId())
  }

  /** One coalesced entry of the queue of fires awaiting dispatch. */
  datatype Fire = Fire(owner: Owner, count: nat)

  datatype ResetReason = SoftwareReset | HardwareReset

  /** The lines and flags kept beside the wheel; ticking never touches them. */
  datatype Board = Board(
    lastTimeUsec: u64,
    usecSinceLast: u64,
    enableA20: bool,
    a20Mask: u64,
    hrq: bool,
    hrqPending: bool,
    asyncEventPending: bool,
    intrRaised: bool,
    intrCleared: bool,
    killRequest: bool,
    resetRequest: Option<ResetReason>)

  datatype TimerError =
    | TimerIndexOutOfBounds(index: nat)
    | TimerNotInUse(unused: nat)
    | NullTimerModification
    | NoFreeTimerSlots
    | TimerStillActive(live: nat)
    | TimerDeadlineOverflow
    | TimeConversionOverflow
}
