/**
  Page-table entry bits, the user address-space layout and page arithmetic of
  the 32-bit x86 JOS kernel, as the user-level fork library and the kernel
  monitor use them.

  The entry bits follow the 32-bit paging format of the Intel SDM, Vol. 3A,
  section 4.3 (P is bit 0, W bit 1, U bit 2; bits 9-11 are available to
  software), and the page-fault error code follows section 4.7 of the same
  volume (bit 1 set means the faulting access was a write).
 */
module Mmu {

  /** Present. */
  const PTE_P: bv32 := 0x001
  /** Writable. */
  const PTE_W: bv32 := 0x002
  /** User-accessible. */
  const PTE_U: bv32 := 0x004
  /** Copy-on-write: the top one of the three software-available bits. */
  const PTE_COW: bv32 := 0x800

  /** Page-fault error code bit: the faulting access was a write. */
  const FEC_WR: bv32 := 0x002

  const PGSIZE: nat := 4096
  /** Entries in one page table; pages covered by one page-directory entry. */
  const NPTENTRIES: nat := 1024
  /** Bytes mapped by one page-directory entry. */
  const PTSIZE: nat := 0x40_0000
  /** Number of virtual pages in a 32-bit address space. */
  const NPAGES: nat := 0x10_0000

  /** Scratch area used by the fork library (one page-table's worth). */
  const UTEMP: nat := PTSIZE
  /** Scratch page the fault handler maps its fresh copy at: the last page
      of the scratch area, UTEMP + PTSIZE - PGSIZE. */
  const PFTEMP: nat := 0x7f_f000
  /** Lowest address of a user program's text: 2 * PTSIZE. */
  const UTEXT: nat := 0x80_0000
  /** Top of the one-page user exception stack. */
  const UXSTACKTOP: nat := 0xeec0_0000

  /** A 32-bit virtual address. */
  type Va = x: nat | x < 0x1_0000_0000
  /** A virtual page number: the upper 20 bits of a virtual address. */
  type Vpn = x: nat | x < NPAGES

  /** The page number of an address (the PGNUM macro). */
  function PageNum(va: Va): (vpn: Vpn)
    ensures vpn * PGSIZE <= va < vpn * PGSIZE + PGSIZE
  {
    va / PGSIZE
  }

  /** The page-directory index covering a page. */
  function PdxOfPage(vpn: Vpn): (pdx: nat)
    ensures pdx < NPTENTRIES
    ensures pdx * NPTENTRIES <= vpn < pdx * NPTENTRIES + NPTENTRIES
  {
    vpn / NPTENTRIES
  }

  /** The page-directory index of an address (the PDX macro: bits 22-31). */
  function Pdx(va: Va): nat
  {
    PdxOfPage(PageNum(va))
  }

  /** The page numbers of PFTEMP, UTEXT and UXSTACKTOP - PGSIZE. */
  const PFTEMP_VPN: Vpn := 0x7ff
  const UTEXT_VPN: Vpn := 0x800
  /** The page of the user exception stack, one page below UXSTACKTOP. */
  const UXSTACK_VPN: Vpn := 0xeebff

  /** The page-number constants are the page numbers of their addresses. */
  lemma PageConstants()
    ensures PTSIZE == PGSIZE * NPTENTRIES && PFTEMP == UTEMP + PTSIZE - PGSIZE && UTEXT == 2 * PTSIZE
    ensures PageNum(PFTEMP) == PFTEMP_VPN && PFTEMP_VPN * PGSIZE == PFTEMP
    ensures PageNum(UTEXT) == UTEXT_VPN && UTEXT_VPN * PGSIZE == UTEXT
    ensures PageNum(UXSTACKTOP - PGSIZE) == UXSTACK_VPN && UXSTACK_VPN * PGSIZE == UXSTACKTOP - PGSIZE
  {
  }

  /** Permission words the fork library passes to the kernel. */
  const PTE_PU: bv32 := PTE_P | PTE_U
  const PTE_PUW: bv32 := PTE_P | PTE_U | PTE_W
  const PTE_PUCOW: bv32 := PTE_P | PTE_U | PTE_COW
}

/** Optional values. */
module Wrappers {
  datatype Option<+T> = None | Some(value: T)
}
