/** Datatypes and 64-bit arithmetic shared by the component models. */
module Common {

  datatype Option<+T> = None | Some(value: T)

  /** Processes, threads and nodes by their identity. */
  type Pid = nat
  type Tid = nat
  type NodeId = nat

  /** Where work waits: a process's queue, or the own queue of one of its threads. */
  datatype Queue = ProcQueue(pid: Pid) | ThreadQueue(tid: Tid)

  /** Two to the sixty-fourth: uint64_t arithmetic wraps here. */
  const WRAP: nat := 0x1_0000_0000_0000_0000

  /** A uint64_t. */
  type U64 = x: nat | x < WRAP

  /** uint64_t addition. */
  function Plus(a: U64, b: U64): U64 {
    (a + b) % WRAP
  }

  /** The driver's BINDER_ALIGN: round up to a multiple of eight, in uint64_t. */
  function Align(x: U64): (r: U64)
    ensures r % 8 == 0
    ensures x <= WRAP - 8 ==> x <= r < x + 8
  {
    Plus(x, 7) / 8 * 8
  }
}
