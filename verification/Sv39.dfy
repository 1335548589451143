/** Page-table entries and virtual addresses of kernel/riscv.h: section 4.4 (Sv39) of the
    RISC-V Instruction Set Manual, Volume II: Privileged Architecture. Shifts and masks of
    64-bit words are written as division, multiplication and remainder by powers of two. */
module Sv39 {
  const PGSIZE: nat := 4096
  const MAXVA: nat := 0x40_0000_0000       // 1 << 38
  const NVPN: nat := 0x400_0000            // MAXVA / PGSIZE
  const TRAMPOLINE: nat := NVPN - 1        // as page numbers
  const TRAPFRAME: nat := NVPN - 2

  /** PTE_FLAGS(pte): valid, readable, writable, executable, user, and the five bits above. */
  datatype Flags = Flags(v: bool, r: bool, w: bool, x: bool, u: bool, rest: Rest)

  type Rest = n: nat | n < 32

  /** A page-table entry, unpacked: PTE2PA(pte) / PGSIZE and PTE_FLAGS(pte). */
  datatype Pte = Pte(ppn: nat, flags: Flags)

  // ----- Entries as 64-bit words -----

  function Bit(b: bool): nat { if b then 1 else 0 }

  /** PTE_V is bit 0, then PTE_R, PTE_W, PTE_X and PTE_U. */
  function FlagBits(f: Flags): (n: nat)
    ensures n < 1024
  {
    Bit(f.v) + 2 * Bit(f.r) + 4 * Bit(f.w) + 8 * Bit(f.x) + 16 * Bit(f.u) + 32 * f.rest
  }

  /** ((uint64)pa >> 12) << 10 */
  function PA2PTE(pa: nat): nat { pa / 0x1000 * 0x400 }

  /** (pte >> 10) << 12 */
  function PTE2PA(word: nat): nat { word / 0x400 * 0x1000 }

  /** pte & 0x3FF */
  function PTE_FLAGS(word: nat): nat { word % 0x400 }

  function Unflag(n: nat): Flags
    requires n < 1024
  {
    Flags(n % 2 == 1, n / 2 % 2 == 1, n / 4 % 2 == 1, n / 8 % 2 == 1, n / 16 % 2 == 1, n / 32)
  }

  /** What the hardware and the kernel read in a word. */
  function Unpack(word: nat): Pte { Pte(PTE2PA(word) / PGSIZE, Unflag(PTE_FLAGS(word))) }

  lemma FlagsRoundTrip(f: Flags)
    ensures Unflag(FlagBits(f)) == f
  {
    var n := FlagBits(f);
    var k4 := Bit(f.u) + 2 * f.rest;
    var k3 := Bit(f.x) + 2 * k4;
    var k2 := Bit(f.w) + 2 * k3;
    var k1 := Bit(f.r) + 2 * k2;
    assert n == Bit(f.v) + 2 * k1 == Bit(f.v) + 2 * Bit(f.r) + 4 * k2;
    hide FlagBits;
    Digit(f.v, n, 1, 0, k1);
    Digit(f.r, n, 2, Bit(f.v), k2);
    Digit(f.w, n, 4, Bit(f.v) + 2 * Bit(f.r), k3);
    Digit(f.x, n, 8, Bit(f.v) + 2 * Bit(f.r) + 4 * Bit(f.w), k4);
    Digit(f.u, n, 16, Bit(f.v) + 2 * Bit(f.r) + 4 * Bit(f.w) + 8 * Bit(f.x), f.rest);
    hide Bit;
  }

  /** Bit b of n, with the value m, what is below it and what is above. */
  lemma Digit(b: bool, n: nat, m: nat, below: nat, above: nat)
    requires m in {1, 2, 4, 8, 16} && below < m && n == below + m * (Bit(b) + 2 * above)
    ensures (n / m % 2 == 1) == b && n / (2 * m) == above
  {
    assert n / m == Bit(b) + 2 * above;
    assert n == (below + m * Bit(b)) + 2 * m * above;
  }

  /** Packing a page address and flags into a word loses neither. */
  lemma PteRoundTrip(ppn: nat, f: Flags)
    ensures Unpack(PA2PTE(ppn * PGSIZE) + FlagBits(f)) == Pte(ppn, f)
  {
    var word := PA2PTE(ppn * PGSIZE) + FlagBits(f);
    assert word == ppn * 0x400 + FlagBits(f);
    assert word / 0x400 == ppn && word % 0x400 == FlagBits(f);
    FlagsRoundTrip(f);
  }

  const ZERO: Pte := Pte(0, Flags(false, false, false, false, false, 0))

  function PGROUNDUP(sz: nat): (r: nat)
    ensures sz <= r < sz + PGSIZE && r % PGSIZE == 0
  {
    (sz + PGSIZE - 1) / PGSIZE * PGSIZE
  }

  function PGROUNDDOWN(a: nat): (r: nat)
    ensures r <= a < r + PGSIZE && r % PGSIZE == 0
  {
    a / PGSIZE * PGSIZE
  }

  predicate IsValid(pte: Pte) { pte.flags.v }

  /** (pte & (PTE_R | PTE_W | PTE_X)) != 0: the entry maps a page rather than a table. */
  predicate IsLeaf(pte: Pte) { pte.flags.r || pte.flags.w || pte.flags.x }

  predicate IsUser(pte: Pte) { pte.flags.u }

  /** What is read back after *pte = PA2PTE(pa) | perm | PTE_V. The address part of the word
      has zeros where the flags are, so | is +. */
  function MakePte(ppn: nat, perm: Flags): (pte: Pte)
    ensures pte == Pte(ppn, perm.(v := true))
  {
    PteRoundTrip(ppn, perm.(v := true));
    Unpack(PA2PTE(ppn * PGSIZE) + FlagBits(perm.(v := true)))
  }

  /** An entry of an interior table: PA2PTE(pagetable) | PTE_V. */
  function Ptr(ppn: nat): (pte: Pte)
    ensures pte == Pte(ppn, Flags(true, false, false, false, false, 0))
  {
    MakePte(ppn, ZERO.flags)
  }

  /** PX(level, va) */
  function PX(level: nat, va: nat): (i: nat)
    requires level <= 2
    ensures i < 512
  {
    va / (if level == 0 then 0x1000 else if level == 1 then 0x20_0000 else 0x4000_0000) % 512
  }

  /** The three indices of an address are the digits, base 512, of its page number. */
  lemma PXDigits(va: nat)
    requires va < MAXVA
    ensures var v := va / PGSIZE;
            && v < NVPN && PX(0, va) == v % 512 && PX(1, va) == v / 512 % 512 && PX(2, va) == v / 512 / 512
            && v == PX(2, va) * 512 * 512 + PX(1, va) * 512 + PX(0, va)
  {
    var v := va / PGSIZE;
    assert va / 0x20_0000 == v / 512;
    assert va / 0x4000_0000 == v / 512 / 512;
  }
}
