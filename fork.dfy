/**
  User-level copy-on-write fork (lib/fork.c): the page-fault handler that
  gives an environment a private copy of a copy-on-write page, the per-page
  sharing decision, and fork itself.

  The functions of the library run in the calling environment `self` and
  change the kernel state only through the system calls of Syscalls.Kernel.
  The read-only page-table views uvpd/uvpt are the functions UvpdPresent and
  Uvpt applied to the caller's current environment. A panic ends the call
  with Panicked and leaves the state as the calls made so far left it.
 */
module CowFork {
  import opened Mmu
  import opened Wrappers
  import opened Syscalls

  /** How a library call ends: it returns a value, or it panics. */
  datatype Outcome<T> = Returned(value: T) | Panicked

  // ---------------------------------------------------------------------
  // pgfault

  /** The test at the top of the handler: the fault was a write, the page
      table covering the address is present and its entry carries PTE_COW. */
  predicate IsCowWriteFault(env: Env, va: Va, err: bv32)
  {
    err & FEC_WR != 0 && UvpdPresent(env, Pdx(va)) && Uvpt(env, PageNum(va)) & PTE_COW != 0
  }

  /** The caller's environment after the handler's allocate, remap and unmap
      steps, the new frame being `newFrame`. */
  function PgFaultEnv(env: Env, vpn: Vpn, newFrame: FrameId): (r: Env)
    ensures vpn != PFTEMP_VPN ==> vpn in r.pt && r.pt[vpn] == Pte(newFrame, PTE_PUW)
    ensures PFTEMP_VPN !in r.pt
    ensures forall v :: v != vpn && v != PFTEMP_VPN ==>
              (v in r.pt <==> v in env.pt) && (v in env.pt ==> r.pt[v] == env.pt[v])
    ensures r.pdes == env.pdes + {PdxOfPage(PFTEMP_VPN), PdxOfPage(vpn)}
    ensures r.status == env.status && r.upcall == env.upcall
  {
    Unmapped(Mapped(Mapped(env, PFTEMP_VPN, Pte(newFrame, PTE_PUW)), vpn, Pte(newFrame, PTE_PUW)), PFTEMP_VPN)
  }

  /** What the copy step puts in the new frame: the contents of the
      faulting page as mapped after the allocation (so the fresh zero page
      itself when the faulting page is the scratch page). */
  function PgFaultCopy(env: Env, frames: map<FrameId, Page>, vpn: Vpn): Page
    requires vpn in env.pt && env.pt[vpn].frame in frames
  {
    if vpn == PFTEMP_VPN then ZeroPage() else frames[env.pt[vpn].frame]
  }

  /** The system calls of one successful handler run, in order. */
  function PgFaultCalls(self: EnvId, vpn: Vpn): seq<Call>
  {
    [PageAllocCall(self, PFTEMP_VPN, PTE_PUW), PageMapCall(self, PFTEMP_VPN, self, vpn, PTE_PUW), PageUnmapCall(self, PFTEMP_VPN)]
  }

  /** pgfault: handle a fault at va with error code err in environment self. */
  method PgFault(k: Kernel, self: EnvId, va: Va, err: bv32) returns (r: Outcome<()>)
    requires k.Valid() && self in k.envs
    modifies k
    ensures k.Valid() && k.nextEnv == old(k.nextEnv)
    ensures self in k.envs && k.envs == old(k.envs)[self := k.envs[self]]
    ensures k.envs[self].status == old(k.envs)[self].status && k.envs[self].upcall == old(k.envs)[self].upcall
    ensures !IsCowWriteFault(old(k.envs)[self], va, err) ==>
              r.Panicked? && k.envs == old(k.envs) && k.frames == old(k.frames) && k.log == old(k.log)
    ensures r.Returned? ==>
              && IsCowWriteFault(old(k.envs)[self], va, err)
              && PageNum(va) in old(k.envs)[self].pt
              && k.envs == old(k.envs)[self := PgFaultEnv(old(k.envs)[self], PageNum(va), old(k.nextFrame))]
              && k.frames == old(k.frames)[old(k.nextFrame) := PgFaultCopy(old(k.envs)[self], old(k.frames), PageNum(va))]
              && k.nextFrame == old(k.nextFrame) + 1
              && k.log == old(k.log) + PgFaultCalls(self, PageNum(va))
  {
    var vpn := PageNum(va);
    var env := k.envs[self];
    if err & FEC_WR == 0 || !UvpdPresent(env, Pdx(va)) || Uvpt(env, vpn) & PTE_COW == 0 {
      return Panicked;
    }
    ghost var envs0, frames0, newFrame, log0 := k.envs, k.frames, k.nextFrame, k.log;
    var rc := k.PageAlloc(self, PFTEMP_VPN, PTE_PUW);
    if rc < 0 {
      return Panicked;
    }
    ghost var e1 := Mapped(env, PFTEMP_VPN, Pte(newFrame, PTE_PUW));
    k.CopyPage(self, PFTEMP_VPN, vpn);
    UpdateTwice(frames0, newFrame, ZeroPage(), PgFaultCopy(env, frames0, vpn));
    rc := k.PageMap(self, PFTEMP_VPN, self, vpn, PTE_PUW);
    ghost var e2 := Mapped(e1, vpn, Pte(newFrame, PTE_PUW));
    UpdateTwice(envs0, self, e1, e2);
    if rc < 0 {
      return Panicked;
    }
    rc := k.PageUnmap(self, PFTEMP_VPN);
    UpdateTwice(envs0, self, e2, Unmapped(e2, PFTEMP_VPN));
    if rc < 0 {
      return Panicked;
    }
    AppendThree(log0, PageAllocCall(self, PFTEMP_VPN, PTE_PUW), PageMapCall(self, PFTEMP_VPN, self, vpn, PTE_PUW), PageUnmapCall(self, PFTEMP_VPN));
    r := Returned(());
  }

  // ---------------------------------------------------------------------
  // duppage

  /** A page that is writable or already copy-on-write is shared
      copy-on-write; any other page is shared as it is. */
  predicate IsCowCandidate(perm: bv32)
  {
    perm & PTE_W != 0 || perm & PTE_COW != 0
  }

  /** The child's entry for a duplicated parent entry. */
  function ChildPte(p: Pte): Pte
  {
    if IsCowCandidate(p.perm) then Pte(p.frame, PTE_PUCOW) else Pte(p.frame, PTE_PU)
  }

  /** The parent's entry after duplication. */
  function ParentPte(p: Pte): Pte
  {
    if IsCowCandidate(p.perm) then Pte(p.frame, PTE_PUCOW) else p
  }

  /** The environments once the child has been given its mapping of page vpn. */
  function ChildShared(envs: map<EnvId, Env>, self: EnvId, child: EnvId, vpn: Vpn): map<EnvId, Env>
    requires self in envs && child in envs && vpn in envs[self].pt
  {
    envs[child := Mapped(envs[child], vpn, ChildPte(envs[self].pt[vpn]))]
  }

  /** The environments after a successful duppage of page vpn: the child is
      given its mapping first, then a copy-on-write page is remapped
      copy-on-write in the parent too. */
  function DupPageEnvs(envs: map<EnvId, Env>, self: EnvId, child: EnvId, vpn: Vpn): map<EnvId, Env>
    requires self in envs && child in envs && vpn in envs[self].pt
  {
    var p := envs[self].pt[vpn];
    var shared := ChildShared(envs, self, child, vpn);
    if IsCowCandidate(p.perm) then shared[self := Mapped(shared[self], vpn, ParentPte(p))] else shared
  }

  /** The system calls of one successful duppage, for a page whose entry
      word is perm. */
  function DupPageCalls(perm: bv32, self: EnvId, child: EnvId, vpn: Vpn): seq<Call>
  {
    if IsCowCandidate(perm) then
      [PageMapCall(self, vpn, child, vpn, PTE_PUCOW), PageMapCall(self, vpn, self, vpn, PTE_PUCOW)]
    else
      [PageMapCall(self, vpn, child, vpn, PTE_PU)]
  }

  /** duppage: map page vpn of self into child at the same address. */
  method DupPage(k: Kernel, self: EnvId, child: EnvId, vpn: Vpn) returns (r: Outcome<int>)
    requires k.Valid() && self in k.envs
    modifies k
    ensures k.Valid() && k.nextEnv == old(k.nextEnv) && k.nextFrame == old(k.nextFrame) && k.frames == old(k.frames)
    ensures r.Panicked? ==>
              || k.envs == old(k.envs)
              || (child in old(k.envs) && vpn in old(k.envs)[self].pt && k.envs == ChildShared(old(k.envs), self, child, vpn))
    ensures r.Returned? ==>
              && r.value == 0
              && child in old(k.envs) && vpn in old(k.envs)[self].pt
              && k.envs == DupPageEnvs(old(k.envs), self, child, vpn)
              && k.log == old(k.log) + DupPageCalls(old(k.envs)[self].pt[vpn].perm, self, child, vpn)
  {
    var pte := Uvpt(k.envs[self], vpn);
    if pte & PTE_W != 0 || pte & PTE_COW != 0 {
      var rc := k.PageMap(self, vpn, child, vpn, PTE_PUCOW);
      if rc < 0 {
        return Panicked;
      }
      rc := k.PageMap(self, vpn, self, vpn, PTE_PUCOW);
      if rc < 0 {
        return Panicked;
      }
      AppendTwo(old(k.log), PageMapCall(self, vpn, child, vpn, PTE_PUCOW), PageMapCall(self, vpn, self, vpn, PTE_PUCOW));
    } else {
      var rc := k.PageMap(self, vpn, child, vpn, PTE_PU);
      if rc < 0 {
        return Panicked;
      }
    }
    r := Returned(0);
  }

  // ---------------------------------------------------------------------
  // fork

  /** Whether fork duplicates page v of the parent: the page-directory entry
      covering it is present and its entry is present and user-accessible. */
  predicate Duplicated(parent: Env, v: Vpn)
  {
    UvpdPresent(parent, PdxOfPage(v)) && Uvpt(parent, v) & PTE_P != 0 && Uvpt(parent, v) & PTE_U != 0
  }

  /** The child's page table once the pages from UTEXT up to (not including)
      page `upto` have been duplicated. */
  function ChildTable(parent: Env, upto: nat): map<Vpn, Pte>
  {
    map v | v in parent.pt && UTEXT_VPN <= v < upto && Duplicated(parent, v) :: ChildPte(parent.pt[v])
  }

  /** The page-directory entries present in the child at that point. */
  function ChildPdes(parent: Env, upto: nat): set<nat>
  {
    set v | v in ChildTable(parent, upto) :: PdxOfPage(v)
  }

  /** The parent's page table at that point. */
  function ParentTable(parent: Env, upto: nat): map<Vpn, Pte>
  {
    map v | v in parent.pt :: if UTEXT_VPN <= v < upto && Duplicated(parent, v) then ParentPte(parent.pt[v]) else parent.pt[v]
  }

  /** The environments while fork walks the address space, before page `upto`. */
  function ForkingEnvs(envs: map<EnvId, Env>, self: EnvId, child: EnvId, upto: nat): map<EnvId, Env>
    requires self in envs
  {
    envs[self := envs[self].(pt := ParentTable(envs[self], upto))]
        [child := Env(ChildTable(envs[self], upto), ChildPdes(envs[self], upto), NotRunnable, None)]
  }

  /** The parent after fork. */
  function ForkedParent(parent: Env): Env
  {
    parent.(pt := ParentTable(parent, UXSTACK_VPN))
  }

  /** The child after fork: the duplicated pages, a fresh exception-stack
      frame, runnable, with upcall `upcall`. */
  function ForkedChild(parent: Env, newFrame: FrameId, upcall: Option<nat>): Env
  {
    Mapped(Env(ChildTable(parent, UXSTACK_VPN), ChildPdes(parent, UXSTACK_VPN), Runnable, upcall), UXSTACK_VPN, Pte(newFrame, PTE_PUW))
  }

  /** All environments after a successful fork of self into child. */
  function Forked(envs: map<EnvId, Env>, self: EnvId, child: EnvId, newFrame: FrameId, upcall: Option<nat>): map<EnvId, Env>
    requires self in envs
  {
    envs[self := ForkedParent(envs[self])][child := ForkedChild(envs[self], newFrame, upcall)]
  }

  /** The calls the walk makes for page v: those of one duppage when fork
      duplicates the page, none otherwise. */
  function WalkStepCalls(parent: Env, self: EnvId, child: EnvId, v: Vpn): (calls: seq<Call>)
    ensures |calls| <= 2
  {
    if Duplicated(parent, v) then DupPageCalls(Uvpt(parent, v), self, child, v) else []
  }

  /** The page-map calls of the address-space walk, for the pages before `upto`. */
  function DupCalls(parent: Env, self: EnvId, child: EnvId, upto: nat): seq<Call>
    requires upto <= UXSTACK_VPN
    decreases upto
  {
    if upto <= UTEXT_VPN then []
    else
      DupCalls(parent, self, child, upto - 1) + WalkStepCalls(parent, self, child, upto - 1)
  }

  /** The environments after the walk, the exception-stack allocation, the
      upcall registration and the status change are those of a finished fork. */
  lemma ForkedFromWalk(envs: map<EnvId, Env>, self: EnvId, child: EnvId, newFrame: FrameId, upcall: Option<nat>)
    requires self in envs && self != child
    ensures var f := ForkingEnvs(envs, self, child, UXSTACK_VPN);
            var c := Mapped(f[child], UXSTACK_VPN, Pte(newFrame, PTE_PUW));
            f[child := c][child := c.(upcall := upcall)][child := c.(upcall := upcall, status := Runnable)]
              == Forked(envs, self, child, newFrame, upcall)
  {
    var f := ForkingEnvs(envs, self, child, UXSTACK_VPN);
    var c := Mapped(f[child], UXSTACK_VPN, Pte(newFrame, PTE_PUW));
    UpdateTwice(f, child, c, c.(upcall := upcall));
    UpdateTwice(f, child, c.(upcall := upcall), c.(upcall := upcall, status := Runnable));
    UpdateTwice(envs[self := ForkedParent(envs[self])], child, f[child], c.(upcall := upcall, status := Runnable));
  }

  /** Forking from the state the creation call leaves is forking from the
      state before it, the child's fresh entry being overwritten. */
  lemma ForkedAfterCreation(envs: map<EnvId, Env>, self: EnvId, child: EnvId, newFrame: FrameId, upcall: Option<nat>)
    requires self in envs && child !in envs
    ensures Forked(envs[child := Env(map[], {}, NotRunnable, None)], self, child, newFrame, upcall)
              == Forked(envs, self, child, newFrame, upcall)
  {
    var p := envs[self];
    UpdateSwap(envs, child, Env(map[], {}, NotRunnable, None), self, ForkedParent(p));
    UpdateTwice(envs[self := ForkedParent(p)], child, Env(map[], {}, NotRunnable, None), ForkedChild(p, newFrame, upcall));
  }

  /** The calls fork's parent path makes after the walk, in order. */
  function ForkTailCalls(child: EnvId, entry: nat): seq<Call>
  {
    [PageAllocCall(child, UXSTACK_VPN, PTE_PUW), SetUpcallCall(child, entry), SetStatusCall(child, Runnable)]
  }

  /** Every system call of a successful fork in the parent, in order. */
  function ForkCalls(parent: Env, self: EnvId, child: EnvId, entry: nat): seq<Call>
  {
    [ExoforkCall(self)] + DupCalls(parent, self, child, UXSTACK_VPN) + ForkTailCalls(child, entry)
  }

  /** Extending the walk by a duplicated page adds that page to the child's
      table and its page-directory entry to the child's present set. */
  lemma ChildStep(p: Env, cur: Vpn)
    requires UTEXT_VPN <= cur && Duplicated(p, cur)
    ensures cur in p.pt
    ensures ChildTable(p, cur + 1) == ChildTable(p, cur)[cur := ChildPte(p.pt[cur])]
    ensures ChildPdes(p, cur + 1) == ChildPdes(p, cur) + {PdxOfPage(cur)}
  {
    var t0, t1 := ChildTable(p, cur), ChildTable(p, cur + 1);
    assert t1 == t0[cur := ChildPte(p.pt[cur])];
    forall d | d in ChildPdes(p, cur + 1)
      ensures d in ChildPdes(p, cur) + {PdxOfPage(cur)}
    {
      var v :| v in t1 && PdxOfPage(v) == d;
      if v != cur {
        assert v in t0;
      }
    }
    forall d | d in ChildPdes(p, cur) + {PdxOfPage(cur)}
      ensures d in ChildPdes(p, cur + 1)
    {
      if d == PdxOfPage(cur) {
        assert cur in t1;
      } else {
        var v :| v in t0 && PdxOfPage(v) == d;
        assert v in t1;
      }
    }
  }

  /** Updating a map at a key with the value it already has changes nothing. */
  lemma UpdateSame<K, V>(m: map<K, V>, key: K)
    requires key in m
    ensures m[key := m[key]] == m
  {
  }

  /** Sequence concatenation is associative. */
  lemma AppendAssoc<T>(s: seq<T>, t: seq<T>, u: seq<T>)
    ensures s + t + u == s + (t + u)
  {
  }

  /** Swapping two updates of a map at different keys. */
  lemma UpdateSwap<K, V>(m: map<K, V>, a: K, x: V, b: K, y: V)
    requires a != b
    ensures m[a := x][b := y] == m[b := y][a := x]
  {
  }

  /** Extending the walk by one page changes the parent's table at that page
      only, and only when the page is duplicated. */
  lemma ParentStep(p: Env, cur: Vpn)
    requires UTEXT_VPN <= cur
    ensures Duplicated(p, cur) ==> cur in p.pt && ParentTable(p, cur + 1) == ParentTable(p, cur)[cur := ParentPte(p.pt[cur])]
    ensures !Duplicated(p, cur) ==> ParentTable(p, cur + 1) == ParentTable(p, cur)
  {
    if Duplicated(p, cur) {
      assert ParentTable(p, cur + 1) == ParentTable(p, cur)[cur := ParentPte(p.pt[cur])];
    } else {
      assert ParentTable(p, cur + 1) == ParentTable(p, cur);
    }
  }

  /** A step of the walk over a page that is not duplicated changes nothing. */
  lemma ForkingSkip(envs: map<EnvId, Env>, self: EnvId, child: EnvId, cur: Vpn)
    requires self in envs && UTEXT_VPN <= cur && !Duplicated(envs[self], cur)
    ensures ForkingEnvs(envs, self, child, cur + 1) == ForkingEnvs(envs, self, child, cur)
  {
    ParentStep(envs[self], cur);
    assert ChildTable(envs[self], cur + 1) == ChildTable(envs[self], cur);
  }

  /** A step of the walk over a duplicated page is one duppage of it. */
  lemma ForkingDup(envs: map<EnvId, Env>, self: EnvId, child: EnvId, cur: Vpn)
    requires self in envs && self != child && UTEXT_VPN <= cur && Duplicated(envs[self], cur)
    ensures cur in envs[self].pt
    ensures cur in ForkingEnvs(envs, self, child, cur)[self].pt
    ensures ForkingEnvs(envs, self, child, cur)[self].pt[cur] == envs[self].pt[cur]
    ensures ForkingEnvs(envs, self, child, cur + 1) == DupPageEnvs(ForkingEnvs(envs, self, child, cur), self, child, cur)
  {
    var p := envs[self];
    ChildStep(p, cur);
    ParentStep(p, cur);
    var q := p.pt[cur];
    assert p.pdes + {PdxOfPage(cur)} == p.pdes;
    var f := ForkingEnvs(envs, self, child, cur);
    var c1 := Mapped(f[child], cur, ChildPte(q));
    var p1 := Mapped(f[self], cur, ParentPte(q));
    assert c1 == Env(ChildTable(p, cur + 1), ChildPdes(p, cur + 1), NotRunnable, None);
    UpdateTwice(envs[self := f[self]], child, f[child], c1);
    if IsCowCandidate(q.perm) {
      assert p1 == p.(pt := ParentTable(p, cur + 1));
      UpdateSwap(envs[self := f[self]], child, c1, self, p1);
      UpdateTwice(envs, self, f[self], p1);
    } else {
      UpdateSame(ParentTable(p, cur), cur);
    }
  }

  /** Before the walk, ForkingEnvs is the state exofork left. */
  lemma ForkingStart(envs: map<EnvId, Env>, self: EnvId, child: EnvId)
    requires self in envs && child in envs && self != child && envs[child] == Env(map[], {}, NotRunnable, None)
    ensures ForkingEnvs(envs, self, child, UTEXT_VPN) == envs
  {
    var p := envs[self];
    assert ChildTable(p, UTEXT_VPN) == map[];
    assert ChildPdes(p, UTEXT_VPN) == {};
    assert ParentTable(p, UTEXT_VPN) == p.pt;
    UpdateSame(envs, self);
    UpdateSame(envs, child);
  }

  /** The state a panic part-way through fork leaves: the same environments,
      the child still not runnable, the parent's status and upcall as they
      were, and every other environment untouched. */
  ghost predicate Aborted(before: map<EnvId, Env>, after: map<EnvId, Env>, self: EnvId, child: EnvId)
    requires self in before && child in before
  {
    && after.Keys == before.Keys
    && after[child].status == NotRunnable
    && after[self].status == before[self].status && after[self].upcall == before[self].upcall
    && forall e :: e in before && e != self && e != child ==> after[e] == before[e]
  }

  /** Panicking anywhere in the walk leaves an aborted fork behind. */
  lemma WalkAborted(envs: map<EnvId, Env>, self: EnvId, child: EnvId, cur: Vpn)
    requires self in envs && child in envs && self != child
    requires envs[child].status == NotRunnable
    ensures Aborted(envs, ForkingEnvs(envs, self, child, cur), self, child)
    ensures Duplicated(envs[self], cur) ==>
              cur in ForkingEnvs(envs, self, child, cur)[self].pt &&
              Aborted(envs, ChildShared(ForkingEnvs(envs, self, child, cur), self, child, cur), self, child)
  {
    if Duplicated(envs[self], cur) {
      assert cur in envs[self].pt;
    }
  }

  /** Panicking after the walk, before the child is made runnable, leaves an
      aborted fork behind. */
  lemma TailAborted(envs: map<EnvId, Env>, self: EnvId, child: EnvId, newFrame: FrameId, upcall: Option<nat>)
    requires self in envs && child in envs && self != child
    requires envs[child].status == NotRunnable
    ensures var f := ForkingEnvs(envs, self, child, UXSTACK_VPN);
            var c := Mapped(f[child], UXSTACK_VPN, Pte(newFrame, PTE_PUW));
            Aborted(envs, f[child := c], self, child) && Aborted(envs, f[child := c.(upcall := upcall)], self, child)
  {
  }

  /** One iteration of the walk: duppage the page at addr when the parent
      maps it present and user-accessible. */
  method WalkStep(k: Kernel, self: EnvId, child: EnvId, addr: Va, ghost envs0: map<EnvId, Env>, ghost log0: seq<Call>)
      returns (r: Outcome<()>)
    requires self in envs0 && child in envs0 && self != child && envs0[child].status == NotRunnable
    requires UTEXT_VPN <= PageNum(addr) < UXSTACK_VPN
    requires k.Valid() && k.envs == ForkingEnvs(envs0, self, child, PageNum(addr))
    requires k.log == log0 + DupCalls(envs0[self], self, child, PageNum(addr))
    modifies k
    ensures k.Valid() && k.nextEnv == old(k.nextEnv) && k.nextFrame == old(k.nextFrame) && k.frames == old(k.frames)
    ensures r.Panicked? ==> Aborted(envs0, k.envs, self, child)
    ensures r.Returned? ==>
              && k.envs == ForkingEnvs(envs0, self, child, PageNum(addr) + 1)
              && k.log == log0 + DupCalls(envs0[self], self, child, PageNum(addr) + 1)
  {
    var vpn := PageNum(addr);
    ghost var p0 := envs0[self];
    WalkAborted(envs0, self, child, vpn);
    var parent := k.envs[self];
    if UvpdPresent(parent, Pdx(addr)) && Uvpt(parent, vpn) & PTE_P != 0 && Uvpt(parent, vpn) & PTE_U != 0 {
      assert Duplicated(p0, vpn);
      ForkingDup(envs0, self, child, vpn);
      var d := DupPage(k, self, child, vpn);
      if d.Panicked? {
        return Panicked;
      }
      AppendAssoc(log0, DupCalls(p0, self, child, vpn), DupPageCalls(Uvpt(p0, vpn), self, child, vpn));
    } else {
      assert !Duplicated(p0, vpn);
      ForkingSkip(envs0, self, child, vpn);
    }
    r := Returned(());
  }

  /** The walk of fork over the parent's address space, from UTEXT up to the
      exception stack, sharing every present user page with the child. */
  method DupAddressSpace(k: Kernel, self: EnvId, child: EnvId) returns (r: Outcome<()>)
    requires k.Valid() && self in k.envs && child in k.envs && self != child
    requires k.envs[child] == Env(map[], {}, NotRunnable, None)
    modifies k
    ensures k.Valid() && k.nextEnv == old(k.nextEnv) && k.nextFrame == old(k.nextFrame) && k.frames == old(k.frames)
    ensures r.Panicked? ==> Aborted(old(k.envs), k.envs, self, child)
    ensures r.Returned? ==>
              && k.envs == ForkingEnvs(old(k.envs), self, child, UXSTACK_VPN)
              && k.log == old(k.log) + DupCalls(old(k.envs)[self], self, child, UXSTACK_VPN)
  {
    ghost var envs0, log0 := k.envs, k.log;
    ForkingStart(envs0, self, child);
    var addr: nat := UTEXT;
    ghost var cur: nat := UTEXT_VPN;
    while addr < UXSTACKTOP - PGSIZE
      invariant UTEXT_VPN <= cur <= UXSTACK_VPN && addr == cur * 4096
      invariant k.envs == ForkingEnvs(envs0, self, child, cur)
      invariant k.log == log0 + DupCalls(envs0[self], self, child, cur)
      invariant k.Valid() && k.nextEnv == old(k.nextEnv) && k.nextFrame == old(k.nextFrame) && k.frames == old(k.frames)
    {
      assert PageNum(addr) == cur;
      var step := WalkStep(k, self, child, addr, envs0, log0);
      if step.Panicked? {
        return Panicked;
      }
      addr := addr + PGSIZE;
      cur := cur + 1;
    }
    r := Returned(());
  }

  /** The end of fork's parent path, once the walk is done: allocate the
      child's exception stack, register its upcall (ignoring the result) and
      make it runnable. */
  method FinishChild(k: Kernel, self: EnvId, child: EnvId, entry: nat, ghost envs0: map<EnvId, Env>) returns (r: Outcome<nat>)
    requires self in envs0 && child in envs0 && self != child && envs0[child].status == NotRunnable
    requires k.Valid() && k.envs == ForkingEnvs(envs0, self, child, UXSTACK_VPN)
    modifies k
    ensures k.Valid() && k.nextEnv == old(k.nextEnv)
    ensures r.Panicked? ==> Aborted(envs0, k.envs, self, child)
    ensures r.Returned? ==>
              && r.value == child && child in k.envs
              && k.envs == Forked(envs0, self, child, old(k.nextFrame), k.envs[child].upcall)
              && (k.envs[child].upcall == Some(entry) || k.envs[child].upcall == None)
              && k.frames == old(k.frames)[old(k.nextFrame) := ZeroPage()]
              && k.nextFrame == old(k.nextFrame) + 1
              && k.log == old(k.log) + ForkTailCalls(child, entry)
  {
    ghost var newFrame, log0 := k.nextFrame, k.log;
    var rc := k.PageAlloc(child, UXSTACK_VPN, PTE_PUW);
    if rc < 0 {
      TailAborted(envs0, self, child, newFrame, None);
      return Panicked;
    }
    // The upcall registration's result is not checked.
    var ignored := k.EnvSetPgfaultUpcall(child, entry);
    ghost var upcall := k.envs[child].upcall;
    TailAborted(envs0, self, child, newFrame, upcall);
    rc := k.EnvSetStatus(child, Runnable);
    if rc < 0 {
      return Panicked;
    }
    ForkedFromWalk(envs0, self, child, newFrame, upcall);
    AppendThree(log0, PageAllocCall(child, UXSTACK_VPN, PTE_PUW), SetUpcallCall(child, entry), SetStatusCall(child, Runnable));
    r := Returned(child);
  }

  /** fork, from the point where the creation call has returned `split` in
      environment self: the child's copy returns 0 at once, the parent's copy
      duplicates the address space into the child, gives it an exception
      stack and its upcall, makes it runnable and returns its id. */
  method ForkAfterSplit(k: Kernel, self: EnvId, entry: nat, split: ExoResult) returns (r: Outcome<nat>)
    requires k.Valid() && self in k.envs
    requires split.Parent? ==> && split.child != self && split.child in k.envs
                               && k.envs[split.child] == Env(map[], {}, NotRunnable, None)
    modifies k
    ensures k.Valid() && k.nextEnv == old(k.nextEnv)
    ensures !split.Parent? ==> k.envs == old(k.envs) && k.frames == old(k.frames) && k.log == old(k.log)
    ensures split.Failed? ==> r.Panicked?
    ensures split.Child? ==> r == Returned(0)
    ensures split.Parent? && r.Panicked? ==> Aborted(old(k.envs), k.envs, self, split.child)
    ensures split.Parent? && r.Returned? ==>
              && r.value == split.child && split.child in k.envs
              && k.envs == Forked(old(k.envs), self, split.child, old(k.nextFrame), k.envs[split.child].upcall)
              && (k.envs[split.child].upcall == Some(entry) || k.envs[split.child].upcall == None)
              && k.frames == old(k.frames)[old(k.nextFrame) := ZeroPage()]
              && k.nextFrame == old(k.nextFrame) + 1
              && k.log == old(k.log) + DupCalls(old(k.envs)[self], self, split.child, UXSTACK_VPN)
                                     + ForkTailCalls(split.child, entry)
  {
    if split.Failed? {
      return Panicked;
    }
    if split.Child? {
      // The child fixes its own environment pointer and returns 0.
      return Returned(0);
    }
    var child := split.child;
    ghost var envs0 := k.envs;
    var walked := DupAddressSpace(k, self, child);
    if walked.Panicked? {
      return Panicked;
    }
    r := FinishChild(k, self, child, entry, envs0);
  }

  /** fork: create a child environment sharing the caller's pages
      copy-on-write. */
  method Fork(k: Kernel, self: EnvId, entry: nat) returns (r: Outcome<nat>)
    requires k.Valid() && self in k.envs
    modifies k
    ensures k.Valid()
    ensures r.Returned? ==>
              && r.value == old(k.nextEnv) && r.value !in old(k.envs) && r.value in k.envs
              && k.envs == Forked(old(k.envs), self, r.value, old(k.nextFrame), k.envs[r.value].upcall)
              && (k.envs[r.value].upcall == Some(entry) || k.envs[r.value].upcall == None)
              && k.frames == old(k.frames)[old(k.nextFrame) := ZeroPage()]
              && k.log == old(k.log) + ForkCalls(old(k.envs)[self], self, r.value, entry)
    ensures r.Panicked? ==>
              || (k.envs == old(k.envs) && k.frames == old(k.frames))
              || (&& old(k.nextEnv) !in old(k.envs)
                  && Aborted(old(k.envs)[old(k.nextEnv) := Env(map[], {}, NotRunnable, None)], k.envs, self, old(k.nextEnv)))
  {
    ghost var envs0, newFrame, log0 := k.envs, k.nextFrame, k.log;
    var split := k.ExoFork(self);
    ghost var envs1 := k.envs;
    r := ForkAfterSplit(k, self, entry, split);
    if split.Parent? && r.Returned? {
      assert envs1[self] == envs0[self];
      ForkedAfterCreation(envs0, self, split.child, newFrame, k.envs[split.child].upcall);
      ghost var walk, tail := DupCalls(envs0[self], self, split.child, UXSTACK_VPN), ForkTailCalls(split.child, entry);
      AppendAssoc(log0 + [ExoforkCall(self)], walk, tail);
      AppendAssoc(log0, [ExoforkCall(self)], walk + tail);
      AppendAssoc([ExoforkCall(self)], walk, tail);
    }
  }
}
