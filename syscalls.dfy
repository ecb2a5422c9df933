/**
  The kernel state the user-level fork library works on, and the system calls
  it issues, as abstract operations.

  The state is a set of environments (processes), each with a page table
  from virtual page number to (frame, permission bits), the set of page
  directory entries that have a page table behind them, a run status and a
  registered page-fault upcall; plus a frame store holding page contents.
  Every call may fail with a negative result for reasons the library cannot
  see (out of memory, say): that failure is a nondeterministic choice here,
  and a failed call leaves the state as it was.
 */
module Syscalls {
  import opened Mmu
  import opened Wrappers

  /** Environment ids are positive: 0 is what fork returns in the child. */
  type EnvId = x: nat | x > 0 witness 1
  type FrameId = nat
  type Page = seq<bv8>

  /** A page-table entry: the frame it maps and its permission bits. */
  datatype Pte = Pte(frame: FrameId, perm: bv32)

  datatype Status = NotRunnable | Runnable

  /** One environment: its page table, the page-directory entries that are
      present, its run status and its page-fault upcall entry point. */
  datatype Env = Env(pt: map<Vpn, Pte>, pdes: set<nat>, status: Status, upcall: Option<nat>)

  /** The record of one system call, kept in the kernel's ghost call log. */
  datatype Call =
    | PageAllocCall(env: EnvId, vpn: Vpn, perm: bv32)
    | PageMapCall(src: EnvId, srcVpn: Vpn, dst: EnvId, dstVpn: Vpn, perm: bv32)
    | PageUnmapCall(env: EnvId, vpn: Vpn)
    | ExoforkCall(parent: EnvId)
    | SetStatusCall(env: EnvId, status: Status)
    | SetUpcallCall(env: EnvId, entry: nat)

  /** What the environment-creation call yields: the parent's copy of the
      call sees the child's id, the child's copy sees the marker Child. */
  datatype ExoResult = Parent(child: EnvId) | Child | Failed(code: int)

  /** Error codes of the JOS kernel (inc/error.h is not part of this model). */
  const E_BAD_ENV: int := 2
  const E_NO_MEM: int := 4
  const E_NO_FREE_ENV: int := 5

  /** The contents of a freshly allocated page: PGSIZE zero bytes. */
  function ZeroPage(): (z: Page)
    ensures |z| == PGSIZE && forall i :: 0 <= i < |z| ==> z[i] == 0
  {
    seq(PGSIZE, _ => 0)
  }

  /** Updating a map twice at the same key keeps the second value. */
  lemma UpdateTwice<K, V>(m: map<K, V>, key: K, first: V, second: V)
    ensures m[key := first][key := second] == m[key := second]
  {
  }

  /** Appending two elements one by one appends the two-element sequence. */
  lemma AppendTwo<T>(s: seq<T>, a: T, b: T)
    ensures s + [a] + [b] == s + [a, b]
  {
  }

  /** Appending three elements one by one appends the three-element sequence. */
  lemma AppendThree<T>(s: seq<T>, a: T, b: T, c: T)
    ensures s + [a] + [b] + [c] == s + [a, b, c]
  {
  }

  /** The entry word the read-only page-table view (uvpt) shows for a page;
      0 for a page with no mapping. */
  function Uvpt(env: Env, vpn: Vpn): bv32
  {
    if vpn in env.pt then env.pt[vpn].perm else 0
  }

  /** Whether the page-directory view (uvpd) shows entry pdx as present. */
  predicate UvpdPresent(env: Env, pdx: nat)
  {
    pdx in env.pdes
  }

  /** The environment after inserting a mapping: the page table covering the
      page is created if it was missing. */
  function Mapped(env: Env, vpn: Vpn, pte: Pte): Env
  {
    env.(pt := env.pt[vpn := pte], pdes := env.pdes + {PdxOfPage(vpn)})
  }

  /** The environment after removing the mapping of a page, if any; the page
      table itself stays. */
  function Unmapped(env: Env, vpn: Vpn): Env
  {
    env.(pt := env.pt - {vpn})
  }

  /** Every mapping of an environment points into the frame store and is
      covered by a present page-directory entry. */
  ghost predicate EnvValid(env: Env, frames: map<FrameId, Page>)
  {
    forall v :: v in env.pt ==> env.pt[v].frame in frames && PdxOfPage(v) in env.pdes
  }

  /** No mapping of any environment refers to frame f. */
  ghost predicate FrameUnused(envs: map<EnvId, Env>, f: FrameId)
  {
    forall e, v :: e in envs && v in envs[e].pt ==> envs[e].pt[v].frame != f
  }

  class Kernel {
    var envs: map<EnvId, Env>
    var frames: map<FrameId, Page>
    /** Id the next created environment gets. */
    var nextEnv: EnvId
    /** Frame the next allocation returns. */
    var nextFrame: FrameId
    /** Every system call made so far, in order, failed ones included. */
    ghost var log: seq<Call>

    ghost predicate Valid()
      reads this
    {
      (forall e :: e in envs ==> e < nextEnv && EnvValid(envs[e], frames)) &&
      (forall f :: f in frames ==> f < nextFrame && |frames[f]| == PGSIZE)
    }

    /** A kernel with no environments, no frames and no calls made yet. */
    constructor()
      ensures Valid()
      ensures envs == map[] && frames == map[] && nextEnv == 1 && nextFrame == 0 && log == []
    {
      envs := map[];
      frames := map[];
      nextEnv := 1;
      nextFrame := 0;
      log := [];
    }

    /** The frame the next allocation returns is not mapped anywhere. */
    lemma NextFrameUnused()
      requires Valid()
      ensures FrameUnused(envs, nextFrame)
    {
    }

    /** sys_page_alloc: map a fresh zero-filled frame at page vpn of env id. */
    method PageAlloc(id: EnvId, vpn: Vpn, perm: bv32) returns (r: int)
      requires Valid()
      modifies this
      ensures Valid() && log == old(log) + [PageAllocCall(id, vpn, perm)]
      ensures nextEnv == old(nextEnv)
      ensures r <= 0 && (r == 0 ==> id in old(envs))
      ensures r == 0 ==> && envs == old(envs)[id := Mapped(old(envs)[id], vpn, Pte(old(nextFrame), perm))]
                         && frames == old(frames)[old(nextFrame) := ZeroPage()]
                         && nextFrame == old(nextFrame) + 1
      ensures r < 0 ==> envs == old(envs) && frames == old(frames) && nextFrame == old(nextFrame)
    {
      log := log + [PageAllocCall(id, vpn, perm)];
      if id !in envs {
        return -E_BAD_ENV;
      }
      var outOfMemory: bool :| true;
      if outOfMemory {
        return -E_NO_MEM;
      }
      var f := nextFrame;
      frames := frames[f := ZeroPage()];
      envs := envs[id := Mapped(envs[id], vpn, Pte(f, perm))];
      nextFrame := f + 1;
      r := 0;
    }

    /** sys_page_map: map page dstVpn of dst to the frame that page srcVpn of
        src maps, with the given permissions. Fails when either environment
        does not exist or the source page has no mapping. */
    method PageMap(src: EnvId, srcVpn: Vpn, dst: EnvId, dstVpn: Vpn, perm: bv32) returns (r: int)
      requires Valid()
      modifies this
      ensures Valid() && log == old(log) + [PageMapCall(src, srcVpn, dst, dstVpn, perm)]
      ensures nextEnv == old(nextEnv) && nextFrame == old(nextFrame) && frames == old(frames)
      ensures r <= 0
      ensures r == 0 ==> src in old(envs) && dst in old(envs) && srcVpn in old(envs)[src].pt
      ensures r == 0 ==> envs == old(envs)[dst := Mapped(old(envs)[dst], dstVpn, Pte(old(envs)[src].pt[srcVpn].frame, perm))]
      ensures r < 0 ==> envs == old(envs)
    {
      log := log + [PageMapCall(src, srcVpn, dst, dstVpn, perm)];
      if src !in envs || dst !in envs {
        return -E_BAD_ENV;
      }
      if srcVpn !in envs[src].pt {
        return -E_BAD_ENV;
      }
      var outOfMemory: bool :| true;
      if outOfMemory {
        return -E_NO_MEM;
      }
      var f := envs[src].pt[srcVpn].frame;
      envs := envs[dst := Mapped(envs[dst], dstVpn, Pte(f, perm))];
      r := 0;
    }

    /** sys_page_unmap: remove the mapping of page vpn of env id, if any. */
    method PageUnmap(id: EnvId, vpn: Vpn) returns (r: int)
      requires Valid()
      modifies this
      ensures Valid() && log == old(log) + [PageUnmapCall(id, vpn)]
      ensures nextEnv == old(nextEnv) && nextFrame == old(nextFrame) && frames == old(frames)
      ensures r <= 0 && (r == 0 ==> id in old(envs))
      ensures r == 0 ==> envs == old(envs)[id := Unmapped(old(envs)[id], vpn)]
      ensures r < 0 ==> envs == old(envs)
    {
      log := log + [PageUnmapCall(id, vpn)];
      if id !in envs {
        return -E_BAD_ENV;
      }
      var refused: bool :| true;
      if refused {
        return -E_BAD_ENV;
      }
      envs := envs[id := Unmapped(envs[id], vpn)];
      r := 0;
    }

    /** sys_exofork, as its caller sees it: a new environment, not runnable,
        with an empty user address space and no upcall, and its id. */
    method ExoFork(parent: EnvId) returns (r: ExoResult)
      requires Valid()
      modifies this
      ensures Valid() && log == old(log) + [ExoforkCall(parent)]
      ensures frames == old(frames) && nextFrame == old(nextFrame)
      ensures r.Parent? || r.Failed?
      ensures r.Failed? ==> r.code < 0 && envs == old(envs) && nextEnv == old(nextEnv)
      ensures r.Parent? ==> && r.child == old(nextEnv) && r.child !in old(envs)
                            && envs == old(envs)[r.child := Env(map[], {}, NotRunnable, None)]
                            && nextEnv == old(nextEnv) + 1
    {
      log := log + [ExoforkCall(parent)];
      var noFreeEnv: bool :| true;
      if noFreeEnv {
        return Failed(-E_NO_FREE_ENV);
      }
      var c := nextEnv;
      envs := envs[c := Env(map[], {}, NotRunnable, None)];
      nextEnv := nextEnv + 1;
      r := Parent(c);
    }

    /** sys_env_set_status. */
    method EnvSetStatus(id: EnvId, status: Status) returns (r: int)
      requires Valid()
      modifies this
      ensures Valid() && log == old(log) + [SetStatusCall(id, status)]
      ensures nextEnv == old(nextEnv) && nextFrame == old(nextFrame) && frames == old(frames)
      ensures r <= 0 && (r == 0 ==> id in old(envs))
      ensures r == 0 ==> envs == old(envs)[id := old(envs)[id].(status := status)]
      ensures r < 0 ==> envs == old(envs)
    {
      log := log + [SetStatusCall(id, status)];
      if id !in envs {
        return -E_BAD_ENV;
      }
      var refused: bool :| true;
      if refused {
        return -E_BAD_ENV;
      }
      envs := envs[id := envs[id].(status := status)];
      r := 0;
    }

    /** sys_env_set_pgfault_upcall. */
    method EnvSetPgfaultUpcall(id: EnvId, entry: nat) returns (r: int)
      requires Valid()
      modifies this
      ensures Valid() && log == old(log) + [SetUpcallCall(id, entry)]
      ensures nextEnv == old(nextEnv) && nextFrame == old(nextFrame) && frames == old(frames)
      ensures r <= 0 && (r == 0 ==> id in old(envs))
      ensures r == 0 ==> envs == old(envs)[id := old(envs)[id].(upcall := Some(entry))]
      ensures r < 0 ==> envs == old(envs)
    {
      log := log + [SetUpcallCall(id, entry)];
      if id !in envs {
        return -E_BAD_ENV;
      }
      var refused: bool :| true;
      if refused {
        return -E_BAD_ENV;
      }
      envs := envs[id := envs[id].(upcall := Some(entry))];
      r := 0;
    }

    /** memcpy of one whole page, from page srcVpn to page dstVpn of env id,
        through the environment's own mappings. */
    method CopyPage(id: EnvId, dstVpn: Vpn, srcVpn: Vpn)
      requires Valid() && id in envs && dstVpn in envs[id].pt && srcVpn in envs[id].pt
      modifies this
      ensures Valid() && log == old(log)
      ensures envs == old(envs) && nextEnv == old(nextEnv) && nextFrame == old(nextFrame)
      ensures frames == old(frames)[old(envs)[id].pt[dstVpn].frame := old(frames)[old(envs)[id].pt[srcVpn].frame]]
    {
      frames := frames[envs[id].pt[dstVpn].frame := frames[envs[id].pt[srcVpn].frame]];
    }
  }
}
