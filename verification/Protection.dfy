/** What the hardware lets user code and the kernel do in the areas that the kernel makes for tasks. */
module Protection {
  import opened Results
  import opened Sv39
  import opened TableState
  import opened PageTables
  import opened Snapshots
  import opened RangeRuns
  import opened RangeAllocator
  import opened Areas
  import opened Layouts
  import opened Spaces
  import opened ByteBuffers
  import opened HardwareWalk
  import opened StackLayout
  import opened KernelStacks
  import opened ForkProcess
  import opened TaskResources

  /** Where an access at `va` leads in the address space of `pt`. */
  ghost function Seen(pt: PageTable, va: nat, access: Access, mode: Mode, sum: bool, mxr: bool): Option<(nat, nat)>
    reads pt, pt.phys
  {
    Reaches(pt.phys.frames, pt.root.ppn, va, access, mode, sum, mxr)
  }

  /** `va` is an address in area `a` of the space. */
  ghost predicate Within(space: Space, a: Area, va: nat)
    reads space
  {
    && va < ADDRESS_LIMIT && Canonical(va) && KeyOf(a) in space.areaSet && space.areaSet[KeyOf(a)] == a && a.framed
    && a.start <= GetVpn(va) < a.end
  }

  /** The byte at `va`, in the frame kept for its page. */
  ghost predicate Own(space: Space, va: nat, r: Option<(nat, nat)>)
    reads space.pageTable
  {
    GetVpn(va) in space.pageTable.trackers && r == Some((space.pageTable.trackers[GetVpn(va)], Offset(va)))
  }

  /** An area's pages are mapped with its permissions, to the frames kept for them. */
  lemma AreaIsMapped(space: Space, a: Area, va: nat)
    requires space.Valid() && Within(space, a, va)
    ensures var pt := space.pageTable;
      && Sound(pt.phys.frames, pt.phys.Live(), pt.Now()) && MappedAt(pt.phys.frames, pt.Now(), va, a.flags)
      && Own(space, va, Target(pt.phys.frames, pt.Now(), va))
  {
    hide Sound, Translation, Laid, GetVpn, Canonical, Chain, Shows, Ordered, Alternating, UsedPages, WithValid;
    LaidAreaOk(ShotOf(space.pageTable), space.areaSet, space.ranges.Used(), a);
    assert PageOk(ShotOf(space.pageTable), a, GetVpn(va));
  }

  /** A task's trap context is the kernel's: its own user code cannot reach it in any way, and nobody executes it. */
  lemma TrapContextIsPrivate(r: TaskUserResources, tid: nat, va: nat, access: Access, sum: bool, mxr: bool)
    requires r.Valid() && tid in r.ids.Live() && tid < TRAMPOLINE_VPN
    requires va < ADDRESS_LIMIT && Canonical(va) && TrapCtxRange(tid).0 <= GetVpn(va) < TrapCtxRange(tid).1
    ensures Seen(r.space.pageTable, va, access, UserMode, sum, mxr) == None
    ensures access.Fetch? ==> Seen(r.space.pageTable, va, access, SupervisorMode, sum, mxr) == None
    ensures !access.Fetch? ==> Own(r.space, va, Seen(r.space.pageTable, va, access, SupervisorMode, sum, mxr))
  {
    hide Sound, Translation, Laid, GetVpn, Canonical, Chain, Shows, Ordered, Alternating, UsedPages, WithValid;
    hide Reaches, MappedAt, UserStackRange, TrapCtxRange;
    var pt := r.space.pageTable;
    assert HasBoth(r.space.areaSet, r.base, tid);
    AreaIsMapped(r.space, TrapCtxArea(tid), va);
    KernelData(pt.phys.frames, pt.phys.Live(), pt.Now(), va, access, sum, mxr);
  }

  /** A task's stack is data for its user code, in frames of its own; it is never code. */
  lemma UserStackIsData(r: TaskUserResources, tid: nat, va: nat, access: Access, sum: bool, mxr: bool)
    requires r.Valid() && tid in r.ids.Live()
    requires va < ADDRESS_LIMIT && Canonical(va)
    requires UserStackRange(r.base, tid).0 <= GetVpn(va) < UserStackRange(r.base, tid).1
    ensures access.Fetch? ==> Seen(r.space.pageTable, va, access, UserMode, sum, mxr) == None
    ensures !access.Fetch? ==> Own(r.space, va, Seen(r.space.pageTable, va, access, UserMode, sum, mxr))
    ensures access.Fetch? || !sum ==> Seen(r.space.pageTable, va, access, SupervisorMode, sum, mxr) == None
  {
    hide Sound, Translation, Laid, GetVpn, Canonical, Chain, Shows, Ordered, Alternating, UsedPages, WithValid;
    hide Reaches, MappedAt, UserStackRange, TrapCtxRange;
    var pt := r.space.pageTable;
    assert HasBoth(r.space.areaSet, r.base, tid);
    AreaIsMapped(r.space, UserStackArea(r.base, tid), va);
    UserData(pt.phys.frames, pt.phys.Live(), pt.Now(), va, access, sum, mxr);
  }

  /** Kernel stacks are data for the kernel, and shut to user code. */
  lemma KernelStackIsPrivate(r: StackRegistry, kid: nat, va: nat, access: Access, sum: bool, mxr: bool)
    requires r.Valid() && kid in r.ids.Live()
    requires va < ADDRESS_LIMIT && Canonical(va) && KernelStackRange(kid).0 <= GetVpn(va) < KernelStackRange(kid).1
    ensures Seen(r.space.pageTable, va, access, UserMode, sum, mxr) == None
    ensures access.Fetch? ==> Seen(r.space.pageTable, va, access, SupervisorMode, sum, mxr) == None
    ensures !access.Fetch? ==> Own(r.space, va, Seen(r.space.pageTable, va, access, SupervisorMode, sum, mxr))
  {
    hide Sound, Translation, Laid, GetVpn, Canonical, Chain, Shows, Ordered, Alternating, UsedPages, WithValid;
    hide Reaches, MappedAt, KernelStackRange;
    var pt := r.space.pageTable;
    assert Mapped(r.space.areaSet, kid);
    AreaIsMapped(r.space, StackArea(kid), va);
    KernelData(pt.phys.frames, pt.phys.Live(), pt.Now(), va, access, sum, mxr);
  }

  /** The trampoline page, as `MapTrampoline` maps it, is code for the kernel, never written, and shut to user code. */
  lemma TrampolineIsKernelCode(space: Space, ppn: nat, va: nat, access: Access, sum: bool, mxr: bool)
    requires space.Valid() && TRAMPOLINE_VPN in space.pageTable.View()
    requires space.pageTable.View()[TRAMPOLINE_VPN] == Plain(ppn, WithValid(RX_FLAGS))
    requires va < ADDRESS_LIMIT && Canonical(va) && GetVpn(va) == TRAMPOLINE_VPN
    ensures Seen(space.pageTable, va, access, UserMode, sum, mxr) == None
    ensures Seen(space.pageTable, va, access, SupervisorMode, sum, mxr) ==
      if access.Store? then None else Some((ppn, Offset(va)))
  {
    hide Sound, Translation, Laid, GetVpn, Canonical, Chain, Shows, Ordered, Alternating, UsedPages, WithValid;
    hide Reaches;
    var pt := space.pageTable;
    KernelCode(pt.phys.frames, pt.phys.Live(), pt.Now(), va, access, sum, mxr);
  }

  /**
   The bytes of a user buffer as the kernel translates it are those that the program itself reaches at the same
   addresses, wherever the buffer lies in areas that let it.
   */
  lemma KernelSeesTheUsersBytes(space: Space, a: Area, slices: seq<Slice>, from: nat, to: nat, va: nat, access: Access,
                                sum: bool, mxr: bool)
    requires space.Valid() && Within(space, a, va) && from <= va < to
    requires Translates(space.pageTable.trackers, slices, from, to)
    ensures AllValid(slices) && |Places(slices)| == to - from
    ensures var e := EntryOf(Plain(0, WithValid(a.flags)));
      Seen(space.pageTable, va, access, UserMode, sum, mxr) ==
      if e.Usable() && Permits(e, access, UserMode, sum, mxr) then Some(Places(slices)[va - from]) else None
  {
    hide Sound, Translation, Laid, GetVpn, Canonical, Chain, Shows, Ordered, Alternating, UsedPages, WithValid, Places;
    hide Reaches;
    var pt := space.pageTable;
    AreaIsMapped(space, a, va);
    HardwareAgrees(pt.phys.frames, pt.phys.Live(), pt.Now(), va, access, UserMode, sum, mxr);
    assert TranslatesAt(pt.trackers, Places(slices), from, va);
  }
}
