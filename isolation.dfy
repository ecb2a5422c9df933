/**
  The isolation guarantee of copy-on-write fork: a frame that is mapped at
  two places (two environments, or two pages of one environment) is
  writable at neither, so no environment can see another's writes. The
  handler, duppage and fork each keep it; the child's exception stack is
  the one page fork gives the child writable, and no other mapping shares
  its frame.
 */
module ForkIsolation {
  import opened Mmu
  import opened Wrappers
  import opened Syscalls
  import opened CowFork

  /** A mapping through which the environment may write. */
  predicate Writable(p: Pte)
  {
    p.perm & PTE_W != 0
  }

  /** Two distinct mapping slots that map the same frame are both read-only. */
  ghost predicate Isolated(envs: map<EnvId, Env>)
  {
    forall e1, v1, e2, v2 ::
      e1 in envs && v1 in envs[e1].pt && e2 in envs && v2 in envs[e2].pt &&
      (e1 != e2 || v1 != v2) && envs[e1].pt[v1].frame == envs[e2].pt[v2].frame
      ==> !Writable(envs[e1].pt[v1])
  }

  /** The permission words the library installs for shared pages are read-only. */
  lemma SharedWordsReadOnly()
    ensures !Writable(Pte(0, PTE_PU)) && !Writable(Pte(0, PTE_PUCOW))
    ensures forall p :: !Writable(ChildPte(p))
    ensures forall p :: !Writable(ParentPte(p))
    ensures Writable(Pte(0, PTE_PUW))
  {
  }

  /** duppage's two mappings share the parent's frame and are read-only; a
      writable or copy-on-write page becomes copy-on-write on both sides. */
  lemma DupPageShares(envs: map<EnvId, Env>, self: EnvId, child: EnvId, vpn: Vpn)
    requires self in envs && child in envs && self != child && vpn in envs[self].pt
    ensures var after := DupPageEnvs(envs, self, child, vpn);
            var p := envs[self].pt[vpn];
            && after.Keys == envs.Keys
            && vpn in after[child].pt && vpn in after[self].pt
            && after[child].pt[vpn].frame == p.frame && after[self].pt[vpn].frame == p.frame
            && !Writable(after[child].pt[vpn]) && !Writable(after[self].pt[vpn])
            && (IsCowCandidate(p.perm) ==> after[child].pt[vpn].perm == PTE_PUCOW && after[self].pt[vpn].perm == PTE_PUCOW)
            && (!IsCowCandidate(p.perm) ==> after[child].pt[vpn].perm == PTE_PU && after[self] == envs[self])
            && (forall e :: e in envs && e != self && e != child ==> after[e] == envs[e])
            && (forall v :: v in envs[self].pt && v != vpn ==> v in after[self].pt && after[self].pt[v] == envs[self].pt[v])
  {
  }

  /** duppage keeps isolation. */
  lemma DupPageIsolated(envs: map<EnvId, Env>, self: EnvId, child: EnvId, vpn: Vpn)
    requires self in envs && child in envs && self != child && vpn in envs[self].pt
    requires Isolated(envs)
    ensures Isolated(DupPageEnvs(envs, self, child, vpn))
  {
    var after := DupPageEnvs(envs, self, child, vpn);
    var p := envs[self].pt[vpn];
    DupPageShares(envs, self, child, vpn);
    forall e1, v1, e2, v2 |
      e1 in after && v1 in after[e1].pt && e2 in after && v2 in after[e2].pt &&
      (e1 != e2 || v1 != v2) && after[e1].pt[v1].frame == after[e2].pt[v2].frame
      ensures !Writable(after[e1].pt[v1])
    {
      var new1 := v1 == vpn && (e1 == child || e1 == self);
      var new2 := v2 == vpn && (e2 == child || e2 == self);
      if !new1 {
        assert after[e1].pt[v1] == envs[e1].pt[v1];
        if new2 {
          // The other slot holds the parent's frame, mapped in the parent at vpn.
          assert envs[e1].pt[v1].frame == p.frame;
        } else {
          assert after[e2].pt[v2] == envs[e2].pt[v2];
        }
      }
    }
  }

  /** Where each mapping after a successful fork comes from: the child's
      exception stack is the fresh frame; every other child mapping is the
      read-only child entry of a duplicated parent page; every other
      environment's mapping keeps its frame, and stays writable only if the
      walk left it alone. */
  lemma ForkedSlot(envs: map<EnvId, Env>, self: EnvId, child: EnvId, newFrame: FrameId, upcall: Option<nat>, e: EnvId, v: Vpn)
    requires self in envs && child !in envs
    requires e in Forked(envs, self, child, newFrame, upcall) && v in Forked(envs, self, child, newFrame, upcall)[e].pt
    ensures var q := Forked(envs, self, child, newFrame, upcall)[e].pt[v];
            if e == child then
              if v == UXSTACK_VPN then q == Pte(newFrame, PTE_PUW)
              else v in envs[self].pt && Duplicated(envs[self], v) && UTEXT_VPN <= v < UXSTACK_VPN && q == ChildPte(envs[self].pt[v])
            else
              && e in envs && v in envs[e].pt && q.frame == envs[e].pt[v].frame
              && (Writable(q) ==> q == envs[e].pt[v] && !(e == self && UTEXT_VPN <= v < UXSTACK_VPN && Duplicated(envs[self], v)))
  {
    var p := envs[self];
    if e == self && v in p.pt && UTEXT_VPN <= v < UXSTACK_VPN && Duplicated(p, v) {
      assert ParentTable(p, UXSTACK_VPN)[v] == ParentPte(p.pt[v]);
    }
  }

  /** A successful fork keeps isolation, and the child's exception stack is
      a writable page whose frame no other mapping shares. */
  lemma ForkIsolated(envs: map<EnvId, Env>, self: EnvId, child: EnvId, newFrame: FrameId, upcall: Option<nat>)
    requires self in envs && child !in envs && Isolated(envs) && FrameUnused(envs, newFrame)
    ensures var after := Forked(envs, self, child, newFrame, upcall);
            && Isolated(after)
            && UXSTACK_VPN in after[child].pt && Writable(after[child].pt[UXSTACK_VPN])
            && (forall e, v :: e in after && v in after[e].pt && (e != child || v != UXSTACK_VPN) ==>
                  after[e].pt[v].frame != after[child].pt[UXSTACK_VPN].frame)
  {
    var after := Forked(envs, self, child, newFrame, upcall);
    forall e, v | e in after && v in after[e].pt && (e != child || v != UXSTACK_VPN)
      ensures after[e].pt[v].frame != newFrame
    {
      ForkedSlot(envs, self, child, newFrame, upcall, e, v);
    }
    forall e1, v1, e2, v2 |
      e1 in after && v1 in after[e1].pt && e2 in after && v2 in after[e2].pt &&
      (e1 != e2 || v1 != v2) && after[e1].pt[v1].frame == after[e2].pt[v2].frame
      ensures !Writable(after[e1].pt[v1])
    {
      ForkedSlot(envs, self, child, newFrame, upcall, e1, v1);
      ForkedSlot(envs, self, child, newFrame, upcall, e2, v2);
    }
  }

  /** Where each mapping after a successful handler run comes from: the
      faulting page maps the new frame writable, and every other mapping was
      there before. */
  lemma PgFaultSlot(envs: map<EnvId, Env>, self: EnvId, vpn: Vpn, newFrame: FrameId, e: EnvId, v: Vpn)
    requires self in envs
    requires e in envs[self := PgFaultEnv(envs[self], vpn, newFrame)]
    requires v in envs[self := PgFaultEnv(envs[self], vpn, newFrame)][e].pt
    ensures var q := envs[self := PgFaultEnv(envs[self], vpn, newFrame)][e].pt[v];
            if e == self && v == vpn then q == Pte(newFrame, PTE_PUW)
            else e in envs && v in envs[e].pt && q == envs[e].pt[v]
  {
  }

  /** A successful handler run keeps isolation: the faulting page gets a
      frame of its own, and the scratch mapping is gone. */
  lemma PgFaultIsolated(envs: map<EnvId, Env>, self: EnvId, vpn: Vpn, newFrame: FrameId)
    requires self in envs && Isolated(envs) && FrameUnused(envs, newFrame)
    ensures Isolated(envs[self := PgFaultEnv(envs[self], vpn, newFrame)])
  {
    var after := envs[self := PgFaultEnv(envs[self], vpn, newFrame)];
    forall e1, v1, e2, v2 |
      e1 in after && v1 in after[e1].pt && e2 in after && v2 in after[e2].pt &&
      (e1 != e2 || v1 != v2) && after[e1].pt[v1].frame == after[e2].pt[v2].frame
      ensures !Writable(after[e1].pt[v1])
    {
      PgFaultSlot(envs, self, vpn, newFrame, e1, v1);
      PgFaultSlot(envs, self, vpn, newFrame, e2, v2);
    }
  }
}
