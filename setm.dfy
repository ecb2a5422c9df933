/**
  The page-table entry update of the monitor's setm command
  (kern/monitor.c): set or clear one of the P, W and U bits of an entry.
 */
module SetmBits {
  import opened Mmu

  /** The permission bit named by setm's flag argument; 0 for any other. */
  function SetmPerm(flag: char): (perm: bv32)
    ensures flag == 'P' ==> perm == PTE_P
    ensures flag == 'W' ==> perm == PTE_W
    ensures flag == 'U' ==> perm == PTE_U
    ensures flag != 'P' && flag != 'W' && flag != 'U' ==> perm == 0
  {
    if flag == 'U' then PTE_U else if flag == 'W' then PTE_W else if flag == 'P' then PTE_P else 0
  }

  /** The entry word after setm with permission perm: mode '0' clears the
      bits of perm, any other mode sets them. */
  function SetmWord(pte: bv32, mode: char, perm: bv32): bv32
  {
    if mode == '0' then pte & !perm else pte | perm
  }

  /** setm changes no bit outside perm. */
  lemma SetmKeepsOtherBits(pte: bv32, mode: char, perm: bv32)
    ensures SetmWord(pte, mode, perm) & !perm == pte & !perm
  {
    if mode == '0' {
      assert SetmWord(pte, mode, perm) == pte & !perm;
      ClearKeepsOthers(pte, perm);
    } else {
      assert SetmWord(pte, mode, perm) == pte | perm;
      SetKeepsOthers(pte, perm);
    }
  }

  /** Mode '0' clears the selected bits; any other mode sets them. */
  lemma SetmSelectedBit(pte: bv32, mode: char, perm: bv32)
    ensures mode == '0' ==> SetmWord(pte, mode, perm) & perm == 0
    ensures mode != '0' ==> SetmWord(pte, mode, perm) & perm == perm
  {
    if mode == '0' {
      assert SetmWord(pte, mode, perm) == pte & !perm;
      ClearClears(pte, perm);
    } else {
      assert SetmWord(pte, mode, perm) == pte | perm;
      SetSets(pte, perm);
    }
  }

  /** With no bit selected, setm leaves the entry as it was in either mode. */
  lemma SetmNoBit(pte: bv32, mode: char)
    ensures SetmWord(pte, mode, 0) == pte
  {
    if mode == '0' {
      assert SetmWord(pte, mode, 0) == pte & !0;
      AndNotZero(pte);
    } else {
      assert SetmWord(pte, mode, 0) == pte | 0;
      OrZero(pte);
    }
  }

  /** A flag other than P, W or U selects no bit, and then the entry stays
      as it was. */
  lemma SetmUnknownFlag(pte: bv32, mode: char, flag: char)
    requires flag != 'P' && flag != 'W' && flag != 'U'
    ensures SetmWord(pte, mode, SetmPerm(flag)) == pte
  {
    SetmNoBit(pte, mode);
  }

  // Single bit-vector identities the lemmas above are assembled from.

  lemma ClearKeepsOthers(pte: bv32, perm: bv32)
    ensures (pte & !perm) & !perm == pte & !perm
  {
  }

  lemma SetKeepsOthers(pte: bv32, perm: bv32)
    ensures (pte | perm) & !perm == pte & !perm
  {
  }

  lemma ClearClears(pte: bv32, perm: bv32)
    ensures (pte & !perm) & perm == 0
  {
  }

  lemma SetSets(pte: bv32, perm: bv32)
    ensures (pte | perm) & perm == perm
  {
  }

  lemma AndNotZero(pte: bv32)
    ensures pte & !0 == pte
  {
  }

  lemma OrZero(pte: bv32)
    ensures pte | 0 == pte
  {
  }

  /** setm's update of the entry it looked up, entry i of a page table, by
      the mode and flag letters of its second and third arguments. */
  method Setm(pt: array<bv32>, i: nat, mode: char, flag: char)
    requires i < pt.Length
    modifies pt
    ensures pt[..] == old(pt[..])[i := SetmWord(old(pt[i]), mode, SetmPerm(flag))]
  {
    var perm: bv32 := 0;
    if flag == 'P' {
      perm := PTE_P;
    }
    if flag == 'W' {
      perm := PTE_W;
    }
    if flag == 'U' {
      perm := PTE_U;
    }
    pt[i] := SetmWord(pt[i], mode, perm);
  }
}
