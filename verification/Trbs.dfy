/** Transfer Request Blocks: the 16-byte records that fill a ring segment. */
module Trbs {

  datatype Option<+T> = None | Some(value: T)

  /** The type field of a TRB (bits 15:10 of the control word).  `Unused` is the
      all-zero type of a freshly allocated slot. */
  datatype TrbType =
    | Unused
    | Normal
    | Setup
    | Data
    | Status
    | Isoc
    | Link
    | TransferNoop
    | CommandNoop
    | Command(code: nat)

  /** `ptr` is the buffer address, or the segment a Link TRB points to; `toggle`
      is the Toggle Cycle flag, which only means something on a Link TRB. */
  datatype Trb = Trb(
    ptr: nat,
    len: nat,
    typ: TrbType,
    chain: bool,
    ioc: bool,
    toggle: bool,
    cycle: bool
  )

  /** Segments hold 64 slots; slot 63 is the Link TRB. */
  const SLOTS: nat := 64
}
