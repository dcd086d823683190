/**
 The fixed-width form of timer owners and identifiers in a snapshot, and what a
 snapshot demands of them (`rusty_box/src/pc_system.rs`, lines 159-369).
 */
module TimerWire {
  import opened Base
  import opened TimerTypes

  const SERIAL_PORTS: nat := 4
  const SEEK_PARAMS: nat := 4
  const HPET_TIMERS: nat := 3

  datatype OwnerWire = OwnerWire(tag: byte, argument: u32)

  /** `timer_owner_wire_parts`: the tag and argument, or nothing for an argument out of range. */
  function OwnerParts(owner: Owner): Option<OwnerWire> {
    match owner
    case NullTimer => Some(OwnerWire(0, 0))
    case PciIdeCh0 => Some(OwnerWire(1, 0))
    case PciIdeCh1 => Some(OwnerWire(2, 0))
    case Pit => Some(OwnerWire(3, 0))
    case Keyboard => Some(OwnerWire(4, 0))
    case CmosPeriodic => Some(OwnerWire(5, 0))
    case CmosOneSecond => Some(OwnerWire(6, 0))
    case CmosUip => Some(OwnerWire(7, 0))
    case AcpiPmOverflow => Some(OwnerWire(8, 0))
    case SerialFifo(port) => Bounded(9, port, SERIAL_PORTS)
    case Lapic(cpu) => Bounded(10, cpu, MAX_LAPICS)
    case Slowdown => Some(OwnerWire(11, 0))
    case HdSeek(param) => Bounded(12, param, SEEK_PARAMS)
    case Hpet(index) => Bounded(13, index, HPET_TIMERS)
    case SerialTx(port) => Bounded(14, port, SERIAL_PORTS)
    case VgaVertical => Some(OwnerWire(15, 0))
  }

  function Bounded(tag: byte, argument: nat, limit: nat): Option<OwnerWire>
    requires limit <= MAX_LAPICS
  {
    if argument < limit then Some(OwnerWire(tag, argument)) else None
  }

  /** `read_timer_owner`, once the five bytes are in. */
  function OwnerFromParts(w: OwnerWire): Option<Owner> {
    var n := w.argument;
    match w.tag
    case 0 => Fixed(NullTimer, n)
    case 1 => Fixed(PciIdeCh0, n)
    case 2 => Fixed(PciIdeCh1, n)
    case 3 => Fixed(Pit, n)
    case 4 => Fixed(Keyboard, n)
    case 5 => Fixed(CmosPeriodic, n)
    case 6 => Fixed(CmosOneSecond, n)
    case 7 => Fixed(CmosUip, n)
    case 8 => Fixed(AcpiPmOverflow, n)
    case 9 => if n < SERIAL_PORTS then Some(SerialFifo(n)) else None
    case 10 => if n < MAX_LAPICS then Some(Lapic(n)) else None
    case 11 => Fixed(Slowdown, n)
    case 12 => if n < SEEK_PARAMS then Some(HdSeek(n)) else None
    case 13 => if n < HPET_TIMERS then Some(Hpet(n)) else None
    case 14 => if n < SERIAL_PORTS then Some(SerialTx(n)) else None
    case 15 => Fixed(VgaVertical, n)
    case _ => None
  }

  function Fixed(owner: Owner, argument: nat): Option<Owner> {
    if argument == 0 then Some(owner) else None
  }

  predicate OnWire(owner: Owner) {
    OwnerParts(owner).Some?
  }

  /** The two directions are inverse: exactly the owners in range are readable, each in one way. */
  lemma OwnerWireBijection(owner: Owner, w: OwnerWire)
    ensures OwnerParts(owner) == Some(w) <==> OwnerFromParts(w) == Some(owner)
  {
  }

  /** `validate_timer_id`: zero-terminated, and nothing but zeros after the terminator. */
  predicate CleanId(id: seq<byte>) {
    && |id| == ID_LEN
    && id[ID_LEN - 1] == 0
    && forall i, j :: 0 <= i < j < ID_LEN && id[i] == 0 ==> id[j] == 0
  }
}
