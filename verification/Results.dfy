/** Outcomes of kernel operations: values, errors, and panics. */
module Results {

  datatype Option<+T> = None | Some(value: T)

  /** The errors of `KernelError` that the modelled operations return. */
  datatype KernelError =
    | EOB
    | OversizeArgs
    | DoubleUnlockMutex
    | ProcessHaveNotTask
    | IdExhausted
    | FrameExhausted
    | FrameNotDeallocable(ppn: nat)
    | AreaAllocFailed(start: nat, end: nat)
    | AreaDeallocFailed(start: nat, end: nat)
    | AreaNotExists(start: nat, end: nat)
    | VPNOutOfArea(vpn: nat, start: nat, end: nat)
    | PPNAlreadyMapped(ppn: nat)
    | PPNNotMapped(ppn: nat)
    | VPNAlreadyMapped(vpn: nat)
    | VPNNotMapped(vpn: nat)
    | AllocFullPageMapper(ppn: nat)
    | DeallocEmptyPageMapper(ppn: nat)
    | InvalidPageTablePerm(flags: nat)

  datatype Result<+T> = Ok(value: T) | Err(error: KernelError)

  /** A call that returns a result, or stops the kernel. */
  datatype Outcome<+T> = Done(result: Result<T>) | Panic
}
