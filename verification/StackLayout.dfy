/** Where the stacks and trap contexts of tasks lie in address spaces. */
module StackLayout {
  import opened Bytes
  import opened Sv39

  /** Read and write, for the kernel alone and for user code as well. */
  const RW_FLAGS: Byte := 6
  const RWU_FLAGS: Byte := 22
  /** Read and execute. */
  const RX_FLAGS: Byte := 10

  const USER_STACK_PAGES: nat := 8
  const KERNEL_STACK_PAGES: nat := 2
  const GUARD_PAGES: nat := 1
  const TRAP_CTX_BASE: nat := ADDRESS_LIMIT - 2 * PAGE_SIZE

  function VpnCeil(va: nat): nat {
    GetVpn(va + PAGE_SIZE - 1)
  }

  type Range = (nat, nat)

  /** The kernel stack `kid` has room below the trampoline page. */
  predicate KidFits(kid: nat) {
    KERNEL_STACK_PAGES + (KERNEL_STACK_PAGES + GUARD_PAGES) * kid <= TRAMPOLINE_VPN
  }

  /** `get_kernel_task_stack_vpn_range`, with subtraction that wraps around. */
  function KernelStackRange(kid: nat): (r: Range) {
    var pages := VpnCeil(KERNEL_STACK_PAGES * PAGE_SIZE);
    var end := (TRAMPOLINE_VPN - (pages + GUARD_PAGES) * kid) % ADDRESS_LIMIT;
    ((end - pages) % ADDRESS_LIMIT, end)
  }

  /** Where there is no room, the range lies beyond all page numbers, or runs backwards. */
  lemma KernelStackAstray(kid: nat)
    requires !KidFits(kid) && kid < MAX_PID_COUNT * MAX_TID_COUNT
    ensures KernelStackRange(kid).1 > VPN_LIMIT || KernelStackRange(kid).0 > KernelStackRange(kid).1
  {
    assert VpnCeil(KERNEL_STACK_PAGES * PAGE_SIZE) == 2;
  }

  /** The user stack of `tid` above `endVa` ends below 2^39. */
  predicate UserStackFits(endVa: nat, tid: nat) {
    endVa + (tid + 1) * (GUARD_PAGES + USER_STACK_PAGES) * PAGE_SIZE + PAGE_SIZE <= VPN_LIMIT * PAGE_SIZE
  }

  /** `get_user_task_stack_vpn_range`. */
  function UserStackRange(endVa: nat, tid: nat): (r: Range) {
    var guardSize := (tid + 1) * GUARD_PAGES * PAGE_SIZE;
    var stackSize := tid * (USER_STACK_PAGES * PAGE_SIZE);
    var startVa := endVa + guardSize + stackSize;
    (VpnCeil(startVa), VpnCeil(startVa + USER_STACK_PAGES * PAGE_SIZE))
  }

  /** `get_task_trap_ctx_vpn_range`. */
  function TrapCtxRange(tid: nat): (r: Range)
    requires tid < TRAMPOLINE_VPN
  {
    var startVa := TRAP_CTX_BASE - PAGE_SIZE * tid;
    (VpnCeil(startVa), VpnCeil(startVa + PAGE_SIZE))
  }

  predicate Before(a: Range, b: Range) {
    a.1 <= b.0
  }

  lemma KernelStackPlace(kid: nat)
    requires KidFits(kid)
    ensures KernelStackRange(kid) == (TRAMPOLINE_VPN - 3 * kid - 2, TRAMPOLINE_VPN - 3 * kid)
  {
    assert VpnCeil(KERNEL_STACK_PAGES * PAGE_SIZE) == 2;
  }

  lemma CeilOfSum(va: nat, k: nat)
    requires va + (k + 1) * PAGE_SIZE <= VPN_LIMIT * PAGE_SIZE
    ensures VpnCeil(va + k * PAGE_SIZE) == VpnCeil(va) + k && VpnCeil(va) == (va + PAGE_SIZE - 1) / PAGE_SIZE
  {
    var c := va + PAGE_SIZE - 1;
    assert (c + k * PAGE_SIZE) / PAGE_SIZE == c / PAGE_SIZE + k;
    assert c + k * PAGE_SIZE < VPN_LIMIT * PAGE_SIZE;
    assert (c + k * PAGE_SIZE) / PAGE_SIZE < VPN_LIMIT;
  }

  /** A user stack is eight pages, after one page of its own that belongs to no stack. */
  lemma UserStackPlace(endVa: nat, tid: nat)
    requires UserStackFits(endVa, tid)
    ensures UserStackRange(endVa, tid) == (VpnCeil(endVa) + 9 * tid + 1, VpnCeil(endVa) + 9 * tid + 9)
    ensures VpnCeil(endVa) * PAGE_SIZE >= endVa && UserStackRange(endVa, tid).1 < VPN_LIMIT
  {
    CeilOfSum(endVa, 9 * tid + 1);
    CeilOfSum(endVa, 9 * tid + 9);
    var startVa := endVa + (tid + 1) * GUARD_PAGES * PAGE_SIZE + tid * (USER_STACK_PAGES * PAGE_SIZE);
    assert startVa == endVa + (9 * tid + 1) * PAGE_SIZE;
    assert startVa + USER_STACK_PAGES * PAGE_SIZE == endVa + (9 * tid + 9) * PAGE_SIZE;
  }

  lemma TrapCtxPlace(tid: nat)
    requires tid < TRAMPOLINE_VPN
    ensures TrapCtxRange(tid) == (TRAMPOLINE_VPN - 1 - tid, TRAMPOLINE_VPN - tid)
  {
    var k := 0x200_0000;
    var startVa := TRAP_CTX_BASE - PAGE_SIZE * tid;
    assert startVa == ((k - 1) * VPN_LIMIT + (TRAMPOLINE_VPN - 1 - tid)) * PAGE_SIZE;
    assert (startVa + PAGE_SIZE - 1) / PAGE_SIZE == (k - 1) * VPN_LIMIT + (TRAMPOLINE_VPN - 1 - tid);
    assert (startVa + PAGE_SIZE + PAGE_SIZE - 1) / PAGE_SIZE == (k - 1) * VPN_LIMIT + (TRAMPOLINE_VPN - tid);
  }

  /** Kernel stacks of different ids are disjoint, and below each lies a whole page that is in no stack. */
  lemma KernelStacksApart(k: nat, l: nat)
    requires KidFits(k) && KidFits(l)
    ensures KernelStackRange(k).0 < KernelStackRange(k).1 <= TRAMPOLINE_VPN
    ensures k < l ==> KernelStackRange(l).1 + GUARD_PAGES <= KernelStackRange(k).0
    ensures !(KernelStackRange(l).0 <= KernelStackRange(k).0 - 1 < KernelStackRange(l).1)
  {
    KernelStackPlace(k);
    KernelStackPlace(l);
  }

  /**
   User stacks of different tasks are disjoint from each other and from the program, each above a page in no stack.
   */
  lemma UserStacksApart(endVa: nat, k: nat, l: nat)
    requires UserStackFits(endVa, k) && UserStackFits(endVa, l)
    ensures UserStackRange(endVa, k).0 < UserStackRange(endVa, k).1
    ensures endVa <= (UserStackRange(endVa, k).0 - GUARD_PAGES) * PAGE_SIZE
    ensures k < l ==> UserStackRange(endVa, k).1 + GUARD_PAGES <= UserStackRange(endVa, l).0
    ensures !(UserStackRange(endVa, l).0 <= UserStackRange(endVa, k).0 - 1 < UserStackRange(endVa, l).1)
  {
    UserStackPlace(endVa, k);
    UserStackPlace(endVa, l);
  }

  /** Trap contexts of different tasks are different pages, all below the trampoline page. */
  lemma TrapCtxsApart(k: nat, l: nat)
    requires k < TRAMPOLINE_VPN && l < TRAMPOLINE_VPN
    ensures TrapCtxRange(k).1 == TrapCtxRange(k).0 + 1 && TrapCtxRange(k).1 <= TRAMPOLINE_VPN
    ensures k < l ==> Before(TrapCtxRange(l), TrapCtxRange(k))
  {
    TrapCtxPlace(k);
    TrapCtxPlace(l);
  }

  /** The stacks stay below the trap contexts while the top stack ends below the lowest trap context. */
  lemma StacksBelowTrapCtxs(endVa: nat, k: nat, l: nat, count: nat)
    requires k < count && l < count < TRAMPOLINE_VPN
    requires endVa + (9 * count + count + 2) * PAGE_SIZE <= VPN_LIMIT * PAGE_SIZE
    ensures UserStackFits(endVa, k) && Before(UserStackRange(endVa, k), TrapCtxRange(l))
  {
    assert endVa + (9 * k + 9 + 1) * PAGE_SIZE <= VPN_LIMIT * PAGE_SIZE;
    UserStackPlace(endVa, k);
    TrapCtxPlace(l);
    CeilOfSum(endVa, 9 * count + count + 1);
  }

  const MAX_PID_COUNT: nat := 65536
  const MAX_TID_COUNT: nat := 10240

  /** Kernel stack ids fit up to this one and no further, although the allocator would hand out more. */
  lemma KidBound(kid: nat)
    ensures KidFits(kid) <==> kid <= 44739241
    ensures 44739241 < MAX_PID_COUNT * MAX_TID_COUNT
  {
  }
}
