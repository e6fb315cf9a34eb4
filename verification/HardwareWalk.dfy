/**
 The address translation of section 4.3.2 of the RISC-V Privileged Architecture, version 20211203, with the
 Sv39 parameters of section 4.4.1, on the same memory that the page table writes. Fields of addresses and entries and
 words in memory are read here as the standard lays them out, with nothing taken from the page table's own arithmetic.
 */
module HardwareWalk {
  import opened Bytes
  import opened Results
  import opened Physical
  import opened Sv39
  import opened Tree
  import opened TableState
  import opened StackLayout

  /** A page table entry, field by field. */
  datatype Pte = Pte(
    valid: bool, readable: bool, writable: bool, executable: bool, user: bool, ppn: nat, reserved: nat)
  {
    predicate Leaf() {
      readable || executable
    }

    /** Makes a leaf that can be used: valid, and writable only if readable. */
    predicate Usable() {
      valid && Leaf() && (writable ==> readable)
    }
  }

  /** Bits 0 to 4, 53 to 10 and 63 to 54. */
  function PteOf(e: nat): Pte {
    Pte(e % 2 == 1, e / 2 % 2 == 1, e / 4 % 2 == 1, e / 8 % 2 == 1, e / 16 % 2 == 1,
        e / 0x400 % 0x1000_0000_0000, e / 0x40_0000_0000_0000)
  }

  /** The doubleword at byte `at` of a page, lowest byte first. */
  function Load64(f: Frame, at: nat): nat
    requires at + 8 <= PAGE_SIZE
  {
    (f[at] as int) + 0x100 * (f[at + 1] as int) + 0x1_0000 * (f[at + 2] as int) + 0x100_0000 * (f[at + 3] as int)
    + 0x1_0000_0000 * (f[at + 4] as int) + 0x100_0000_0000 * (f[at + 5] as int)
    + 0x1_0000_0000_0000 * (f[at + 6] as int) + 0x100_0000_0000_0000 * (f[at + 7] as int)
  }

  /** The nine bits of a virtual address that select an entry at `depth`: from bit 30, 21 and 12 on. */
  function Field(va: nat, depth: nat): (i: nat)
    requires depth < LEVELS
    ensures i < WORDS_PER_PAGE
  {
    va / (if depth == 0 then 0x4000_0000 else if depth == 1 then 0x20_0000 else 0x1000) % 512
  }

  /** Bits 63 to 39 of the address all equal bit 38. */
  predicate Extended(va: nat) {
    va / 0x40_0000_0000 == 0 || va / 0x40_0000_0000 == 0x3ff_ffff
  }

  datatype Access = Load | Store | Fetch
  datatype Mode = UserMode | SupervisorMode

  /** What step 5 asks of a leaf, with the bits `SUM` and `MXR` of the status register. */
  predicate Permits(p: Pte, access: Access, mode: Mode, sum: bool, mxr: bool) {
    && (mode.UserMode? ==> p.user)
    && (mode.SupervisorMode? && p.user ==> sum && !access.Fetch?)
    && match access
       case Load => p.readable || (mxr && p.executable)
       case Store => p.writable
       case Fetch => p.executable
  }

  /**
   Steps 2 to 4, 6 and 8: the physical page that `va` leads to and the leaf that says so, or a page fault. `table` is
   the page that holds the table of depth `depth`; `ppn[LEVELS - 2 - depth..0]` of a leaf above the lowest depth must be
   zero.
   */
  function Walk(mem: Memory, table: nat, va: nat, depth: nat): Option<(nat, Pte)>
    requires depth < LEVELS
    decreases LEVELS - depth
  {
    var p := PteOf(Load64(FrameAt(mem, table), Field(va, depth) * 8));
    var below := if depth == 0 then 0x4_0000 else if depth == 1 then 512 else 1;
    if !p.valid || (!p.readable && p.writable) || p.reserved != 0 then None
    else if p.Leaf() then
      if p.ppn % below != 0 then None else Some((p.ppn + va / 0x1000 % below, p))
    else if depth + 1 == LEVELS then None
    else Walk(mem, p.ppn, va, depth + 1)
  }

  /**
   The place, page and byte, that an access reaches, or a page fault; the accessed and dirty bits are kept by the
   hardware itself.
   */
  function Reaches(mem: Memory, root: nat, va: nat, access: Access, mode: Mode, sum: bool, mxr: bool)
    : Option<(nat, nat)>
  {
    if !Extended(va) then None
    else
      var leaf := Walk(mem, root, va, 0);
      if leaf.Some? && Permits(leaf.value.1, access, mode, sum, mxr) then Some((leaf.value.0, va % 0x1000)) else None
  }

  // ---------- the layout is the page table's ----------

  /** The entry that a mapping stands for. */
  function EntryOf(m: Mapping): Pte {
    Pte(m.flags % 2 == 1, m.flags / 2 % 2 == 1, m.flags / 4 % 2 == 1, m.flags / 8 % 2 == 1, m.flags / 16 % 2 == 1,
        m.ppn, m.reserved)
  }

  /** The bits of the lowest byte are those of the whole. */
  lemma LowBit(high: nat, low: nat, d: nat, k: nat)
    requires low < 256 && k * d * 2 == 256
    ensures (256 * high + low) / d % 2 == low / d % 2
  {
    var n := low / d;
    assert low == n * d + low % d;
    assert 256 * high + low == (2 * k * high + n) * d + low % d by {
      assert 2 * k * high * d == (k * d * 2) * high;
    }
    DivMod(2 * k * high + n, d, low % d);
    var m := n / 2;
    assert 2 * k * high + n == (k * high + m) * 2 + n % 2;
    DivMod(k * high + m, 2, n % 2);
  }

  lemma NumbersAgree(e: nat)
    ensures PteOf(e).ppn == Decode(e).ppn && PteOf(e).reserved == Decode(e).reserved
  {
    assert 1024 * PPN_LIMIT == 0x40_0000_0000_0000;
  }

  lemma PteIsDecoded(e: nat)
    ensures PteOf(e) == EntryOf(Decode(e)) && (PteOf(e).valid <==> IsValid(e))
  {
    NumbersAgree(e);
    BitsAgree(e);
  }

  lemma BitsAgree(e: nat)
    ensures var p, q := PteOf(e), EntryOf(Decode(e));
      && p.valid == q.valid && p.readable == q.readable && p.writable == q.writable && p.executable == q.executable
      && p.user == q.user
  {
    var high, low := e / 256, e % 256;
    assert e == 256 * high + low;
    LowBit(high, low, 1, 128);
    LowBit(high, low, 2, 64);
    LowBit(high, low, 4, 32);
    LowBit(high, low, 8, 16);
    LowBit(high, low, 16, 8);
    hide EntryPpn;
  }

  lemma LeStep(s: seq<Byte>, k: nat)
    requires k < |s|
    ensures LeValue(s[k..]) == s[k] + 256 * LeValue(s[k + 1..])
  {
    assert s[k..][1..] == s[k + 1..];
  }

  lemma LeFour(s: seq<Byte>, k: nat)
    requires k + 4 <= |s|
    ensures LeValue(s[k..]) ==
      (s[k] as int) + 0x100 * (s[k + 1] as int) + 0x1_0000 * (s[k + 2] as int) + 0x100_0000 * (s[k + 3] as int)
      + 0x1_0000_0000 * LeValue(s[k + 4..])
  {
    LeStep(s, k);
    LeStep(s, k + 1);
    LeStep(s, k + 2);
    LeStep(s, k + 3);
    hide LeValue;
  }

  lemma LoadIsWord(f: Frame, i: nat)
    requires i < WORDS_PER_PAGE
    ensures Load64(f, i * 8) == Word(f, i)
  {
    var s := f[8 * i..8 * i + 8];
    LeFour(s, 0);
    LeFour(s, 4);
    assert s[8..] == [] && s[0..] == s;
  }

  /** Dividing by a page and then by `b` pages. */
  lemma PagesOf(va: nat, b: nat, size: nat)
    requires b > 0 && size == b * 0x1000
    ensures va / size == va / 0x1000 / b
  {
    var n, r := va / 0x1000, va % 0x1000;
    var q, k := n / b, n % b;
    assert n == q * b + k && va == n * 0x1000 + r;
    assert (q * b) * 0x1000 == q * size;
    DivMod(q, size, k * 0x1000 + r);
  }

  /** Nine bits from a place on are the same in the low 27 bits as in the whole. */
  lemma SameField(n: nat, d: nat, m: nat)
    requires d > 0 && d * m * 512 == VPN_LIMIT
    ensures n / d % 512 == n % VPN_LIMIT / d % 512
  {
    var rest, low := n / VPN_LIMIT, n % VPN_LIMIT;
    var q := low / d;
    assert n == (rest * m * 512 + q) * d + low % d by {
      assert (rest * m * 512) * d == rest * (d * m * 512);
    }
    DivMod(rest * m * 512 + q, d, low % d);
    assert rest * m * 512 + q == (rest * m + q / 512) * 512 + q % 512;
    DivMod(rest * m + q / 512, 512, q % 512);
  }

  lemma FieldIsIndex(va: nat, depth: nat)
    requires depth < LEVELS
    ensures Field(va, depth) == Index(GetVpn(va), depth)
  {
    var n := va / 0x1000;
    if depth == 0 {
      PagesOf(va, 0x4_0000, 0x4000_0000);
      SameField(n, 0x4_0000, 1);
    } else if depth == 1 {
      PagesOf(va, 512, 0x20_0000);
      SameField(n, 512, 512);
    } else {
      SameField(n, 1, 0x4_0000);
    }
  }

  lemma ExtendedIsCanonical(va: nat)
    requires va < ADDRESS_LIMIT
    ensures Extended(va) <==> Canonical(va)
  {
  }

  // ---------- the walk ----------

  /** A walk from a node that is a link goes on at the child, or faults where there is none. */
  lemma WalkFollowsLink(mem: Memory, live: set<nat>, t: Table, va: nat, depth: nat)
    requires Sound(mem, live, t) && depth < LEVELS - 1 && NodeOn(GetVpn(va), depth) in t.at
    ensures var vpn := GetVpn(va);
      Walk(mem, t.at[NodeOn(vpn, depth)], va, depth) ==
      if NodeOn(vpn, depth + 1) in t.at then Walk(mem, t.at[NodeOn(vpn, depth + 1)], va, depth + 1) else None
  {
    hide Sound, Index, Word, Decode, IsValid, PteOf, Load64, Field, GetVpn;
    var vpn := GetVpn(va);
    var node := NodeOn(vpn, depth);
    LinkFacts(mem, live, t, node, Index(vpn, depth));
    assert NodeOn(vpn, depth + 1) == Child(node, Index(vpn, depth));
    FieldIsIndex(va, depth);
    LoadIsWord(FrameAt(mem, t.at[node]), Index(vpn, depth));
    PteIsDecoded(Word(FrameAt(mem, t.at[node]), Index(vpn, depth)));
  }

  /** The leaf of a mapping with usable flags. */
  function LeafOf(view: map<nat, Mapping>, v: nat): Option<(nat, Pte)> {
    if v in view && EntryOf(view[v]).Usable() then Some((view[v].ppn, EntryOf(view[v]))) else None
  }

  lemma WalkEndsAtPage(mem: Memory, t: Table, va: nat)
    requires NodeOn(GetVpn(va), 2) in t.at
    requires GetVpn(va) in Translation(mem, t) ==> Translation(mem, t)[GetVpn(va)].reserved == 0
    ensures Walk(mem, t.at[NodeOn(GetVpn(va), 2)], va, 2) == LeafOf(Translation(mem, t), GetVpn(va))
  {
    hide Index, Word, Decode, IsValid, Translation, PteOf, Load64, Field;
    var vpn := GetVpn(va);
    hide GetVpn;
    PageFacts(mem, t, vpn);
    FieldIsIndex(va, 2);
    LoadIsWord(FrameAt(mem, t.at[NodeOn(vpn, 2)]), Index(vpn, 2));
    PteIsDecoded(Word(FrameAt(mem, t.at[NodeOn(vpn, 2)]), Index(vpn, 2)));
  }

  lemma WalkFinds(mem: Memory, live: set<nat>, t: Table, va: nat)
    requires Sound(mem, live, t)
    ensures Walk(mem, t.root.ppn, va, 0) == LeafOf(Translation(mem, t), GetVpn(va))
  {
    hide Walk, Sound, Translation, Index;
    var vpn := GetVpn(va);
    assert vpn < VPN_LIMIT;
    hide GetVpn;
    SoundFacts(mem, live, t);
    SoundIsClear(mem, live, t);
    WalkFollowsLink(mem, live, t, va, 0);
    if vpn in Translation(mem, t) {
      MappedHasNodes(mem, live, t, vpn);
    }
    if NodeOn(vpn, 1) in t.at {
      WalkFollowsLink(mem, live, t, va, 1);
      if NodeOn(vpn, 2) in t.at {
        WalkEndsAtPage(mem, t, va);
      }
    }
  }

  /**
   From every address the hardware reaches exactly what the table maps with usable flags that permit the access: the
   page that `translate_ppn_with` returns for the address's page number, at the address's offset; else it faults.
   */
  lemma HardwareAgrees(mem: Memory, live: set<nat>, t: Table, va: nat, access: Access, mode: Mode, sum: bool,
                       mxr: bool)
    requires Sound(mem, live, t) && va < ADDRESS_LIMIT
    ensures
      var view, vpn := Translation(mem, t), GetVpn(va);
      Reaches(mem, t.root.ppn, va, access, mode, sum, mxr) ==
        if Canonical(va) && vpn in view && EntryOf(view[vpn]).Usable()
           && Permits(EntryOf(view[vpn]), access, mode, sum, mxr) then
          Some((view[vpn].ppn, Offset(va))) else None
  {
    hide Walk, Sound, Translation, Permits, EntryOf, GetVpn, Extended, Canonical;
    WalkFinds(mem, live, t, va);
    ExtendedIsCanonical(va);
  }

  // ---------- the three kinds of pages that the kernel makes for tasks ----------

  /** Where an access to a mapped page must lead: to the frame of the page, at the byte addressed. */
  ghost function Target(mem: Memory, t: Table, va: nat): Option<(nat, nat)>
    requires GetVpn(va) in Translation(mem, t)
  {
    Some((Translation(mem, t)[GetVpn(va)].ppn, Offset(va)))
  }

  /** Page `v` is mapped with `flags`, and `va` is an address in it. */
  ghost predicate MappedAt(mem: Memory, t: Table, va: nat, flags: Byte) {
    && va < ADDRESS_LIMIT && Canonical(va) && GetVpn(va) in Translation(mem, t)
    && Translation(mem, t)[GetVpn(va)].flags == WithValid(flags)
  }

  /** Mapped to be read and written without the user bit, a page is data for the kernel and shut to user code. */
  lemma KernelData(mem: Memory, live: set<nat>, t: Table, va: nat, access: Access, sum: bool, mxr: bool)
    requires Sound(mem, live, t) && MappedAt(mem, t, va, RW_FLAGS)
    ensures Reaches(mem, t.root.ppn, va, access, UserMode, sum, mxr) == None
    ensures Reaches(mem, t.root.ppn, va, access, SupervisorMode, sum, mxr) ==
      if access.Fetch? then None else Target(mem, t, va)
  {
    hide Walk, Sound, Translation, Reaches, GetVpn, Canonical;
    HardwareAgrees(mem, live, t, va, access, UserMode, sum, mxr);
    HardwareAgrees(mem, live, t, va, access, SupervisorMode, sum, mxr);
  }

  /** Mapped to be read and executed without the user bit, it is code for the kernel and shut to user code. */
  lemma KernelCode(mem: Memory, live: set<nat>, t: Table, va: nat, access: Access, sum: bool, mxr: bool)
    requires Sound(mem, live, t) && MappedAt(mem, t, va, RX_FLAGS)
    ensures Reaches(mem, t.root.ppn, va, access, UserMode, sum, mxr) == None
    ensures Reaches(mem, t.root.ppn, va, access, SupervisorMode, sum, mxr) ==
      if access.Store? then None else Target(mem, t, va)
  {
    hide Walk, Sound, Translation, Reaches, GetVpn, Canonical;
    HardwareAgrees(mem, live, t, va, access, UserMode, sum, mxr);
    HardwareAgrees(mem, live, t, va, access, SupervisorMode, sum, mxr);
  }

  /**
   Mapped to be read and written with the user bit, it is data for user code, and for the kernel while `SUM` is set.
   */
  lemma UserData(mem: Memory, live: set<nat>, t: Table, va: nat, access: Access, sum: bool, mxr: bool)
    requires Sound(mem, live, t) && MappedAt(mem, t, va, RWU_FLAGS)
    ensures Reaches(mem, t.root.ppn, va, access, UserMode, sum, mxr) ==
      if access.Fetch? then None else Target(mem, t, va)
    ensures Reaches(mem, t.root.ppn, va, access, SupervisorMode, sum, mxr) ==
      if access.Fetch? || !sum then None else Target(mem, t, va)
  {
    hide Walk, Sound, Translation, Reaches, GetVpn, Canonical;
    HardwareAgrees(mem, live, t, va, access, UserMode, sum, mxr);
    HardwareAgrees(mem, live, t, va, access, SupervisorMode, sum, mxr);
  }
}
