/** Values that the parts of the kernel share. */
module KernelTypes {

  newtype Byte = b: int | 0 <= b < 256

  type Tid = nat

  /** How a waiting list is ordered: RT_IPC_FLAG_FIFO or RT_IPC_FLAG_PRIO. */
  datatype Flag = Fifo | Prio

  /** An 8-bit thread priority; a smaller number is more urgent. */
  type Priority = p: nat | p <= 255

  const NO_WAITER: Priority := 255
  const HOLD_MAX := 255
}
