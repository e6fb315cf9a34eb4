/** Sv39 address arithmetic and page table entries. */
module Sv39 {
  import opened Bytes
  import opened Physical

  const LEVELS: nat := 3
  const VPN_LIMIT: nat := 0x800_0000
  const TRAMPOLINE_VPN: nat := 0x7ff_ffff
  const VALID_FLAG: Byte := 1

  function Pow2(n: nat): (r: nat)
    ensures r > 0
  {
    if n == 0 then 1 else 2 * Pow2(n - 1)
  }

  /** Bits `lo` up to, not including, `hi` of `x`, as `BitField::get_bits` returns them. */
  function GetBits(x: nat, lo: nat, hi: nat): nat
    requires lo <= hi
  {
    (x / Pow2(lo)) % Pow2(hi - lo)
  }

  /** The slot that `vpn` uses in its mapper of depth `level`, the root's depth being 0. */
  function Index(vpn: nat, level: nat): (i: nat)
    requires level < LEVELS
    ensures i < WORDS_PER_PAGE
  {
    if level == 0 then vpn / 0x4_0000 % 512 else if level == 1 then vpn / 512 % 512 else vpn % 512
  }

  function Join(i: nat, j: nat, k: nat): nat {
    i * 0x4_0000 + j * 512 + k
  }

  lemma PowersOfTwo()
    ensures Pow2(0) == 1 && Pow2(9) == 512 && Pow2(18) == 0x4_0000
  {
    assert Pow2(2) == 4;
    assert Pow2(4) == 4 * Pow2(2);
    assert Pow2(6) == 4 * Pow2(4);
    assert Pow2(8) == 4 * Pow2(6);
    assert Pow2(9) == 2 * Pow2(8);
    assert Pow2(11) == 4 * Pow2(9);
    assert Pow2(13) == 4 * Pow2(11);
    assert Pow2(15) == 4 * Pow2(13);
    assert Pow2(17) == 4 * Pow2(15);
    assert Pow2(18) == 2 * Pow2(17);
  }

  /** The loop of `page_indexes`: the three nine-bit fields of a page number, highest first. */
  method PageIndexes(vpn: nat) returns (indexes: seq<nat>)
    ensures indexes == [Index(vpn, 0), Index(vpn, 1), Index(vpn, 2)]
  {
    indexes := [0, 0, 0];
    var offset := 0;
    var i := LEVELS;
    PowersOfTwo();
    while i > 0
      invariant 0 <= i <= LEVELS == |indexes| && offset == 9 * (LEVELS - i)
      invariant forall l :: i <= l < LEVELS ==> indexes[l] == Index(vpn, l)
    {
      i := i - 1;
      var start := offset;
      offset := offset + 9;
      indexes := indexes[i := GetBits(vpn, start, offset)];
    }
  }

  /** The three slots determine a page number up to its low 27 bits, and join back to those bits. */
  lemma IndexesDetermineVpn(u: nat, v: nat)
    ensures Join(Index(u, 0), Index(u, 1), Index(u, 2)) == u % VPN_LIMIT
    ensures (forall l :: 0 <= l < LEVELS ==> Index(u, l) == Index(v, l)) <==> u % VPN_LIMIT == v % VPN_LIMIT
  {
    JoinOfIndexes(u);
    JoinOfIndexes(v);
    if u % VPN_LIMIT == v % VPN_LIMIT {
      IndexOfJoin(Index(u, 0), Index(u, 1), Index(u, 2));
      IndexOfJoin(Index(v, 0), Index(v, 1), Index(v, 2));
    }
    if forall l :: 0 <= l < LEVELS ==> Index(u, l) == Index(v, l) {
      assert Index(u, 0) == Index(v, 0) && Index(u, 1) == Index(v, 1) && Index(u, 2) == Index(v, 2);
    }
  }

  /** The page that a page number names: only its low 27 bits count. */
  function PageOf(vpn: nat): (v: nat)
    ensures v < VPN_LIMIT && (vpn < VPN_LIMIT ==> v == vpn)
  {
    vpn % VPN_LIMIT
  }

  /** A page number uses the slots of its page. */
  lemma PageOfIndexes(vpn: nat)
    ensures [Index(vpn, 0), Index(vpn, 1), Index(vpn, 2)] ==
      [Index(PageOf(vpn), 0), Index(PageOf(vpn), 1), Index(PageOf(vpn), 2)]
  {
    IndexesDetermineVpn(vpn, PageOf(vpn));
    hide Index;
    assert forall l :: 0 <= l < LEVELS ==> Index(vpn, l) == Index(PageOf(vpn), l);
  }

  lemma JoinOfIndexes(v: nat)
    ensures Join(Index(v, 0), Index(v, 1), Index(v, 2)) == v % VPN_LIMIT
  {
    var a := v / 512;
    var b := a / 512;
    var c := b / 512;
    assert v == 512 * a + v % 512 && a == 512 * b + a % 512 && b == 512 * c + b % 512;
    var low := (b % 512) * 0x4_0000 + (a % 512) * 512 + v % 512;
    assert v == c * VPN_LIMIT + low && low < VPN_LIMIT;
    DivMod(c, VPN_LIMIT, low);
    assert v == b * 0x4_0000 + ((a % 512) * 512 + v % 512);
    DivMod(b, 0x4_0000, (a % 512) * 512 + v % 512);
  }

  lemma TimesGrows(a: nat, b: nat, d: nat)
    ensures a < b ==> a * d + d <= b * d
  {
    assert a < b ==> a * d + d == (a + 1) * d <= b * d;
  }

  lemma DivMod(q: nat, d: nat, r: nat)
    requires r < d
    ensures (q * d + r) / d == q && (q * d + r) % d == r
  {
    var n := q * d + r;
    var k := n / d;
    assert n == k * d + n % d;
    TimesGrows(k, q, d);
    TimesGrows(q, k, d);
  }

  lemma IndexOfJoin(i: nat, j: nat, k: nat)
    requires i < 512 && j < 512 && k < 512
    ensures Join(i, j, k) < VPN_LIMIT
    ensures Index(Join(i, j, k), 0) == i && Index(Join(i, j, k), 1) == j && Index(Join(i, j, k), 2) == k
  {
    var v := Join(i, j, k);
    assert v / 512 == i * 512 + j && v % 512 == k by {
      assert v == (i * 512 + j) * 512 + k;
      DivMod(i * 512 + j, 512, k);
    }
    assert v / 512 % 512 == j by {
      DivMod(i, 512, j);
    }
    assert v / 0x4_0000 == i by {
      assert v == i * 0x4_0000 + (j * 512 + k);
      DivMod(i, 0x4_0000, j * 512 + k);
    }
    assert i % 512 == i;
  }

  // ---------- page table entries ----------

  /** What a valid entry says; `reserved` is its ten highest bits. */
  datatype Mapping = Mapping(ppn: nat, flags: Byte, reserved: nat)

  function Plain(ppn: nat, flags: Byte): Mapping {
    Mapping(ppn, flags, 0)
  }

  function NewEntry(ppn: nat, flags: Byte): (e: nat)
    requires ppn < PPN_LIMIT
    ensures e < WORD_LIMIT
  {
    ppn * 1024 + flags
  }

  function EntryPpn(e: nat): nat {
    e / 1024 % PPN_LIMIT
  }

  function EntryFlags(e: nat): Byte {
    e % 256
  }

  predicate IsValid(e: nat) {
    EntryFlags(e) % 2 == 1
  }

  function Decode(e: nat): Mapping {
    Mapping(EntryPpn(e), EntryFlags(e), e / (1024 * PPN_LIMIT))
  }

  /** The flags with the lowest one set, and all others as they are. */
  function WithValid(flags: Byte): (r: Byte)
    ensures r % 2 == 1 && r / 2 == flags / 2
  {
    if flags % 2 == 1 then flags else flags + 1
  }

  /** Both fields of an entry are read back, and only its flags decide whether it is valid. */
  lemma EntryRoundTrip(ppn: nat, flags: Byte)
    requires ppn < PPN_LIMIT
    ensures Decode(NewEntry(ppn, flags)) == Plain(ppn, flags)
    ensures IsValid(NewEntry(ppn, flags)) <==> flags % 2 == 1
  {
  }

  // ---------- virtual addresses ----------

  const ADDRESS_LIMIT: nat := WORD_LIMIT
  const HALF: nat := 0x40_0000_0000

  function GetVpn(va: nat): (v: nat)
    ensures v < VPN_LIMIT
  {
    va / PAGE_SIZE % VPN_LIMIT
  }

  function Offset(va: nat): (o: nat)
    ensures o < PAGE_SIZE
  {
    va % PAGE_SIZE
  }

  /** Addresses whose bits 39 to 63 all repeat bit 38. */
  predicate Canonical(va: nat) {
    va < HALF || ADDRESS_LIMIT - HALF <= va < ADDRESS_LIMIT
  }

  function BaseVa(vpn: nat): nat {
    var va := vpn * PAGE_SIZE % ADDRESS_LIMIT;
    if va / HALF % 2 == 1 then va % (2 * HALF) + (ADDRESS_LIMIT - 2 * HALF) else va
  }

  lemma BaseVaCases(vpn: nat)
    requires vpn < VPN_LIMIT
    ensures BaseVa(vpn) == vpn * PAGE_SIZE + (if vpn < VPN_LIMIT / 2 then 0 else ADDRESS_LIMIT - 2 * HALF)
  {
    var va := vpn * PAGE_SIZE;
    assert va % ADDRESS_LIMIT == va;
    assert va / HALF == if vpn < VPN_LIMIT / 2 then 0 else 1;
  }

  /** Page numbers below 2^27 and canonical page-aligned addresses are in bijection: one direction. */
  lemma GetVpnOfBaseVa(vpn: nat)
    requires vpn < VPN_LIMIT
    ensures GetVpn(BaseVa(vpn)) == vpn && Canonical(BaseVa(vpn)) && Offset(BaseVa(vpn)) == 0
  {
    BaseVaCases(vpn);
    if vpn >= VPN_LIMIT / 2 {
      var k := 0x200_0000;
      assert BaseVa(vpn) == (vpn + (k - 1) * VPN_LIMIT) * PAGE_SIZE;
      assert BaseVa(vpn) / PAGE_SIZE == vpn + (k - 1) * VPN_LIMIT;
    }
  }

  /** Page numbers below 2^27 and canonical page-aligned addresses are in bijection: the other. */
  lemma BaseVaOfGetVpn(va: nat)
    requires Canonical(va) && Offset(va) == 0
    ensures BaseVa(GetVpn(va)) == va
  {
    BaseVaCases(GetVpn(va));
    var q := va / PAGE_SIZE;
    assert va == q * PAGE_SIZE;
    if va >= HALF {
      var k := 0x200_0000;
      assert (k - 1) * VPN_LIMIT <= q < k * VPN_LIMIT;
      assert q % VPN_LIMIT == q - (k - 1) * VPN_LIMIT;
    }
  }
}
