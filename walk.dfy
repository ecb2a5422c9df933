/**
  The order of fork's system calls: the walk issues page-map calls only, for
  the duplicated pages from UTEXT up to the exception stack, in increasing
  page order, each page being mapped into the child before the parent is
  remapped copy-on-write; the child is made runnable by the very last call,
  and its exception stack is allocated afresh rather than shared.
 */
module ForkOrder {
  import opened Mmu
  import opened Syscalls
  import opened CowFork

  /** The shape of one call of the walk over the pages before `upto`. */
  predicate WalkCall(c: Call, parent: Env, self: EnvId, child: EnvId, upto: nat)
  {
    && c.PageMapCall? && c.src == self && c.srcVpn == c.dstVpn
    && UTEXT_VPN <= c.srcVpn < upto && Duplicated(parent, c.srcVpn)
    && (c.dst == child || c.dst == self)
    && (c.dst == child ==> c.perm == (if IsCowCandidate(Uvpt(parent, c.srcVpn)) then PTE_PUCOW else PTE_PU))
    && (c.dst == self ==> IsCowCandidate(Uvpt(parent, c.srcVpn)) && c.perm == PTE_PUCOW)
  }

  /** Every call of the walk is a page-map call of a duplicated page into the
      child or, copy-on-write, back into the parent. */
  lemma {:induction false} DupCallsAreMaps(parent: Env, self: EnvId, child: EnvId, upto: nat)
    requires upto <= UXSTACK_VPN && self != child
    ensures forall i :: 0 <= i < |DupCalls(parent, self, child, upto)| ==>
              WalkCall(DupCalls(parent, self, child, upto)[i], parent, self, child, upto)
    decreases upto
  {
    if upto > UTEXT_VPN {
      var v: Vpn := upto - 1;
      var before := DupCalls(parent, self, child, v);
      DupCallsAreMaps(parent, self, child, v);
      var step := WalkStepCalls(parent, self, child, v);
      var calls := before + step;
      forall i | 0 <= i < |calls|
        ensures WalkCall(calls[i], parent, self, child, upto)
      {
        if i < |before| {
          assert calls[i] == before[i];
          assert WalkCall(before[i], parent, self, child, v);
        } else {
          assert calls[i] == step[i - |before|];
        }
      }
    }
  }

  /** The walk visits pages in increasing order. */
  lemma {:induction false} DupCallsSorted(parent: Env, self: EnvId, child: EnvId, upto: nat)
    requires upto <= UXSTACK_VPN && self != child
    ensures forall i, j :: 0 <= i < j < |DupCalls(parent, self, child, upto)| ==>
              && DupCalls(parent, self, child, upto)[i].PageMapCall? && DupCalls(parent, self, child, upto)[j].PageMapCall?
              && DupCalls(parent, self, child, upto)[i].srcVpn <= DupCalls(parent, self, child, upto)[j].srcVpn
    decreases upto
  {
    if upto > UTEXT_VPN {
      var v: Vpn := upto - 1;
      var before := DupCalls(parent, self, child, v);
      DupCallsSorted(parent, self, child, v);
      DupCallsAreMaps(parent, self, child, v);
      var step := WalkStepCalls(parent, self, child, v);
      var calls := before + step;
      assert calls == DupCalls(parent, self, child, upto);
      forall i, j | 0 <= i < j < |calls|
        ensures calls[i].PageMapCall? && calls[j].PageMapCall? && calls[i].srcVpn <= calls[j].srcVpn
      {
        if j < |before| {
          assert calls[i] == before[i] && calls[j] == before[j];
        } else if i < |before| {
          assert calls[i] == before[i] && WalkCall(before[i], parent, self, child, v);
          assert calls[j] == step[j - |before|];
        } else {
          assert calls[i] == step[i - |before|] && calls[j] == step[j - |before|];
        }
      }
    } else {
      assert DupCalls(parent, self, child, upto) == [];
    }
  }

  /** Each remapping of a page back into `self` directly follows the
      copy-on-write mapping of the same page into `child`. */
  predicate ChildMappedFirst(calls: seq<Call>, self: EnvId, child: EnvId)
  {
    forall i :: 0 <= i < |calls| && calls[i].PageMapCall? && calls[i].dst == self ==>
      0 < i && calls[i - 1] == PageMapCall(self, calls[i].srcVpn, child, calls[i].srcVpn, PTE_PUCOW)
  }

  /** The parent's copy-on-write remapping of a page directly follows the
      child's mapping of the same page, so the page is never copy-on-write in
      the parent while the child still lacks it. */
  lemma {:induction false} DupCallsChildFirst(parent: Env, self: EnvId, child: EnvId, upto: nat)
    requires upto <= UXSTACK_VPN && self != child
    ensures ChildMappedFirst(DupCalls(parent, self, child, upto), self, child)
    decreases upto
  {
    if upto > UTEXT_VPN {
      var v: Vpn := upto - 1;
      var before := DupCalls(parent, self, child, v);
      DupCallsChildFirst(parent, self, child, v);
      var step := WalkStepCalls(parent, self, child, v);
      var calls := before + step;
      forall i | 0 <= i < |calls| && calls[i].PageMapCall? && calls[i].dst == self
        ensures 0 < i && calls[i - 1] == PageMapCall(self, calls[i].srcVpn, child, calls[i].srcVpn, PTE_PUCOW)
      {
        if i < |before| {
          assert calls[i] == before[i] && calls[i - 1] == before[i - 1];
        } else {
          assert calls[i] == step[i - |before|];
          assert i == |before| + 1 && calls[i - 1] == step[0];
        }
      }
    }
  }

  /** Every duplicated page before `upto` is mapped into the child. */
  lemma {:induction false} DupCallsCover(parent: Env, self: EnvId, child: EnvId, upto: nat, v: Vpn)
    requires upto <= UXSTACK_VPN && UTEXT_VPN <= v < upto && Duplicated(parent, v)
    ensures exists i :: 0 <= i < |DupCalls(parent, self, child, upto)| &&
              DupCalls(parent, self, child, upto)[i] == PageMapCall(self, v, child, v, ChildPte(parent.pt[v]).perm)
    decreases upto
  {
    var before := DupCalls(parent, self, child, upto - 1);
    var calls := before + WalkStepCalls(parent, self, child, upto - 1);
    assert calls == DupCalls(parent, self, child, upto);
    if v == upto - 1 {
      assert calls[|before|] == PageMapCall(self, v, child, v, ChildPte(parent.pt[v]).perm);
    } else {
      DupCallsCover(parent, self, child, upto - 1, v);
      var i :| 0 <= i < |before| && before[i] == PageMapCall(self, v, child, v, ChildPte(parent.pt[v]).perm);
      assert calls[i] == before[i];
    }
  }

  /** fork creates the child first and makes it runnable last, with no other
      status change in between; no page-map call touches the exception stack,
      which the child gets as a freshly allocated page. */
  lemma ForkCallsOrder(parent: Env, self: EnvId, child: EnvId, entry: nat)
    requires self != child
    ensures var calls := ForkCalls(parent, self, child, entry);
            && 4 <= |calls| && calls[0] == ExoforkCall(self)
            && calls[|calls| - 1] == SetStatusCall(child, Runnable)
            && (forall i :: 0 <= i < |calls| - 1 ==> !calls[i].SetStatusCall?)
            && (forall i :: 0 <= i < |calls| && calls[i].PageMapCall? ==>
                  calls[i].srcVpn < UXSTACK_VPN && calls[i].dstVpn < UXSTACK_VPN)
            && calls[|calls| - 3] == PageAllocCall(child, UXSTACK_VPN, PTE_PUW)
  {
    var walk := DupCalls(parent, self, child, UXSTACK_VPN);
    DupCallsAreMaps(parent, self, child, UXSTACK_VPN);
    var tail := ForkTailCalls(child, entry);
    var calls := ForkCalls(parent, self, child, entry);
    forall i | 0 <= i < |calls|
      ensures calls[i].PageMapCall? ==> calls[i].srcVpn < UXSTACK_VPN && calls[i].dstVpn < UXSTACK_VPN
      ensures i < |calls| - 1 ==> !calls[i].SetStatusCall?
    {
      if 1 <= i < 1 + |walk| {
        assert calls[i] == walk[i - 1] && WalkCall(walk[i - 1], parent, self, child, UXSTACK_VPN);
      } else if 1 + |walk| <= i {
        assert calls[i] == tail[i - 1 - |walk|];
      }
    }
  }
}
