# Copy-on-write fork and the monitor's command parser of JOS, in Dafny

This project models two pieces of the JOS teaching kernel and proves
properties of them.

**User-level copy-on-write `fork` (lib/fork.c).** It has three parts:

- `fork` creates a child environment (a process) with `sys_exofork`.
- It then walks the parent's address space from `UTEXT` up to the user
  exception stack. Every present, user-accessible page is handed to
  `duppage`.
- `duppage` maps the page into the child at the same address. A page that
  is writable or already copy-on-write becomes copy-on-write (`PTE_COW`)
  in both environments. Any other page is shared read-only.
- `fork` then gives the child a fresh exception-stack page and the page-fault
  upcall, and marks it runnable.
- When an environment later writes to a copy-on-write page, the handler
  `pgfault` checks the fault. It then allocates a page at `PFTEMP`, copies
  the faulting page into it, remaps it writable at the faulting address and
  unmaps `PFTEMP`.

**The kernel monitor's command interpreter (kern/monitor.c).** It covers:

- `runcmd`, which splits a command line into at most 15 arguments in place
  and dispatches on the first one through the command table;
- `xtoi`, which parses a `0x`-prefixed hexadecimal argument;
- the bit update at the core of the `setm` command.

## How the model is built

- **Kernel state.** `Syscalls.Kernel` is a class holding the kernel's state:
  - environments, each with a page table (virtual page → frame and
    permission word), its present page-directory entries, a run status and
    an upcall;
  - a frame store of page contents;
  - a ghost log of every system call made.
- **System calls.** They are methods of `Kernel`. Each one may fail for
  reasons its caller cannot see (running out of memory, say). That failure
  is a nondeterministic choice, and a failed call changes nothing but the
  log. `sys_exofork` returns `Parent(child)` to the parent's copy of the
  call and `Child` to the child's. The child's copy of `fork` is
  `CowFork.ForkAfterSplit` applied to `Child`.
- **Library functions.** `pgfault`, `duppage` and `fork` are methods that
  change the kernel through those calls and, in `pgfault`, through the
  page copy `Kernel.CopyPage`, which models `memcpy` and is not a system
  call. On return, each names in its postcondition the exact new state and
  the exact sequence of calls, given by specification functions
  (`PgFaultEnv`, `DupPageEnvs`, `Forked`, `DupCalls`, `ForkCalls`). A panic
  ends the call with `Panicked`. Before the handler's checks pass, a panic
  changes nothing; after them, only that the other environments and the
  faulting environment's status and upcall are unchanged is stated. For
  `duppage` and `fork`, the model states what a panic part-way through
  leaves behind.
- **Page-table views.** The read-only views `uvpd`/`uvpt` are functions of
  the caller's current environment. A page with no mapping reads as the
  word 0.
- **Proved about these functions:**
  - the sharing discipline: a frame mapped at two places is writable at
    neither, and `pgfault`, `duppage` and `fork` each keep it;
  - the order of `fork`'s calls: the child is mapped before the parent's
    page is re-marked, pages come in ascending order, and the child is made
    runnable last;
  - that every duplicated page is covered.
- **Monitor buffer and C strings.** The command buffer is an `array<char>`
  that `runcmd` changes in place. A C string is read up to its first NUL.
  `argv` is an array of optional indices into the buffer, with `None` as
  NULL.
- **Tokens.** The model names the tokens of a line twice: as the runs
  `Spans` finds from left to right, and as maximal runs of non-separators
  (`IsToken`). It proves the two are the same.

## Model

| member | source | states |
|---|---|---|
| Mmu.PageNum | lib/fork.c:28 | the page number of an address names the 4096-byte page the address lies in |
| Mmu.PdxOfPage | lib/fork.c:29 | the page-directory index of a page is below 1024 and names the 1024-page block holding it |
| Mmu.PageConstants | lib/fork.c:124 | `PFTEMP`, `UTEXT` and `UXSTACKTOP - PGSIZE` are page-aligned and their page numbers are the constants the walk and the handler use |
| Syscalls.Kernel.NextFrameUnused | lib/fork.c:39 | in a valid kernel state, the frame the next allocation hands out is mapped by no environment |
| Syscalls.Kernel.PageAlloc | lib/fork.c:39-40 | success maps a fresh zero-filled frame at the page, creating the page table if needed; failure returns a negative code and changes nothing; the call is logged either way |
| Syscalls.Kernel.PageMap | lib/fork.c:43-44 | success maps the destination page to the frame behind the source page with the given permissions; it fails when an environment is missing or the source page is unmapped, and then changes nothing |
| Syscalls.Kernel.PageUnmap | lib/fork.c:45-46 | success removes the page's mapping and nothing else; failure changes nothing |
| Syscalls.Kernel.ExoFork | lib/fork.c:115-116 | the parent sees a new id not in use, whose environment is not runnable, maps nothing and has no upcall; failure gives a negative code and no new environment |
| Syscalls.Kernel.EnvSetStatus | lib/fork.c:136-138 | success changes the status of that environment only; failure changes nothing |
| Syscalls.Kernel.EnvSetPgfaultUpcall | lib/fork.c:135 | success records the upcall of that environment only; failure changes nothing |
| Syscalls.Kernel.CopyPage | lib/fork.c:42 | the frame behind the destination page receives the contents of the frame behind the source page; mappings are unchanged |
| CowFork.PgFaultEnv | lib/fork.c:39-46 | after the allocate, remap and unmap steps, the faulting page maps the new frame user-writable, `PFTEMP` is unmapped, and every other mapping, the status and the upcall are unchanged |
| CowFork.PgFault | lib/fork.c:14-48 | it panics without changing anything unless the fault is a write to a present copy-on-write page; on return the faulting page has a private writable frame holding a copy of the old contents, exactly the three calls are logged, and no other environment changes |
| CowFork.DupPage | lib/fork.c:61-90 | on return the child maps the parent's frame at the same page, copy-on-write for a writable or copy-on-write page (the parent is then re-marked copy-on-write too) and read-only otherwise; the one or two calls are logged in that order; a panic leaves the state before, or after the child's mapping |
| CowFork.ChildStep | lib/fork.c:124-127 | walking one more selected page adds exactly that page, with its child entry, to the child's table and its directory entry to the child's present set |
| CowFork.ParentStep | lib/fork.c:124-127 | walking one more page changes the parent's table at that page only, and only when the page is selected |
| CowFork.ForkingStart | lib/fork.c:115-124 | before the walk, the walk state is exactly the state `sys_exofork` left |
| CowFork.ForkingSkip | lib/fork.c:124-127 | an unselected page leaves the walk state unchanged |
| CowFork.ForkingDup | lib/fork.c:124-127 | a selected page advances the walk state by exactly one `duppage` of that page |
| CowFork.WalkAborted | lib/fork.c:124-127 | a panic anywhere in the walk leaves every other environment untouched, the child not runnable and the parent's status and upcall as they were |
| CowFork.TailAborted | lib/fork.c:128-138 | the same holds for a panic after the walk and before the child is made runnable |
| CowFork.ForkedFromWalk | lib/fork.c:128-139 | the walked state plus the exception-stack page, the upcall and the runnable status is the finished fork |
| CowFork.ForkedAfterCreation | lib/fork.c:115-121 | forking from the state after the creation call equals forking from the state before it |
| CowFork.WalkStep | lib/fork.c:125-126 | one step of the walk: the next walk state and the calls of one `duppage` when the page is selected, no change otherwise; a panic leaves an aborted fork |
| CowFork.DupAddressSpace | lib/fork.c:124-127 | the walk from `UTEXT` to the exception stack ends in the walk state for the whole range, with exactly those page-map calls logged, or in an aborted fork |
| CowFork.FinishChild | lib/fork.c:128-139 | after the walk: allocate the child's exception stack, register its upcall while ignoring the result, make it runnable and return its id; a panic leaves an aborted fork |
| CowFork.ForkAfterSplit | lib/fork.c:115-139 | a failed creation panics; the child's copy returns 0 without changing anything; the parent's copy returns the child's id with the forked state and logged calls, or panics leaving an aborted fork |
| CowFork.Fork | lib/fork.c:108-140 | assuming no page fault during the call, on return the child is a new environment whose table is the parent's selected pages (copy-on-write where writable) plus a fresh writable exception stack; it is runnable; the parent's writable pages are copy-on-write; nothing else changes; exactly `ForkCalls` is logged; a panic leaves either no change or an aborted fork |
| ForkOrder.DupCallsAreMaps | lib/fork.c:124-127 | every call of the walk maps a selected parent page in `[UTEXT, UXSTACKTOP - PGSIZE)` at the same page, into the child (copy-on-write or read-only per the page's word) or back into the parent (copy-on-write only) |
| ForkOrder.DupCallsSorted | lib/fork.c:124-127 | the walk's calls come in ascending page order |
| ForkOrder.DupCallsChildFirst | lib/fork.c:71-81 | the parent's own page is re-marked copy-on-write only right after the child's mapping of the same page |
| ForkOrder.DupCallsCover | lib/fork.c:124-127 | every selected page in the range is mapped into the child by some call of the walk |
| ForkOrder.ForkCallsOrder | lib/fork.c:108-140 | a successful fork starts with the creation call; the third call from the end allocates the child's exception stack and the last one makes the child runnable; no earlier call changes a status, and no page map touches the exception stack |
| ForkIsolation.SharedWordsReadOnly | lib/fork.c:71-88 | the permission words the library uses for shared pages are read-only; only `PTE_P\|PTE_U\|PTE_W` is writable |
| ForkIsolation.DupPageShares | lib/fork.c:61-90 | after `duppage` both mappings of the page refer to the parent's frame and neither is writable; every other mapping is unchanged |
| ForkIsolation.DupPageIsolated | lib/fork.c:61-90 | `duppage` keeps isolation: no frame is mapped writable at one place and mapped at another |
| ForkIsolation.ForkedSlot | lib/fork.c:124-129 | each mapping after fork is the child's fresh exception stack, a read-only child entry of a selected parent page, or an earlier mapping with its frame, writable only if the walk left it alone |
| ForkIsolation.ForkIsolated | lib/fork.c:105-139 | fork keeps isolation, and the child's exception stack is writable and shares its frame with no other mapping |
| ForkIsolation.PgFaultSlot | lib/fork.c:39-46 | after the handler, each mapping is the new frame at the faulting page or an earlier mapping unchanged |
| ForkIsolation.PgFaultIsolated | lib/fork.c:14-48 | the handler keeps isolation: the page it makes writable has a frame of its own |
| Monitor.FirstNulFrom | kern/monitor.c:115-118 | the index of the first NUL at or after a position: a NUL, with none before it |
| Monitor.LineOf | kern/monitor.c:113-128 | the C string a buffer holds is its prefix before the first NUL, and it contains no NUL |
| Monitor.SkipSpace | kern/monitor.c:115-116 | the gobbling loop stops at the first non-separator or at the end of the line, and everything it passes is a separator |
| Monitor.SkipWord | kern/monitor.c:126-127 | the scanning loop stops at the first separator or at the end of the line, passing only non-separators |
| Monitor.SpansFrom | kern/monitor.c:113-128 | every token found from a position is non-empty, starts at or after that position and ends inside the line |
| Monitor.SpansOrdered | kern/monitor.c:113-128 | the tokens found are strictly left to right: each ends before the next one starts, so at least one separator lies between neighbours |
| Monitor.SpansAreTokens | kern/monitor.c:113-128 | every token found is a maximal run of non-separators |
| Monitor.TokensAreSpans | kern/monitor.c:113-128 | every maximal run of non-separators is found |
| Monitor.SpansAreExactlyTokens | kern/monitor.c:113-128 | the tokens runcmd finds are exactly the maximal runs of non-separators (both directions), in order |
| Monitor.WordsAreNonEmptyRuns | kern/monitor.c:113-128 | every argument string runcmd passes on is non-empty and contains no separator |
| Monitor.TokenIsCString | kern/monitor.c:115-116 | once the separators are overwritten by NUL, the C string at each token's start is exactly that token |
| Monitor.TokenSuffixIsCString | kern/monitor.c:115-116 | the same for every suffix of a token |
| Monitor.LookupFrom | kern/monitor.c:134-136 | the command search finds the first entry with the name, and no entry before it has that name |
| Monitor.MonitorCommandsReachable | kern/monitor.c:25-32 | the names in the monitor's table differ, so every command is found by its own name |
| Monitor.BlankSpaces | kern/monitor.c:115-116 | the gobbling loop overwrites exactly the separators it passes with NUL and stops where the next token starts |
| Monitor.SkipArg | kern/monitor.c:126-127 | the scanning loop stops at the end of the token and changes nothing |
| Monitor.ParseRound | kern/monitor.c:114-128 | one pass of the parse loop: it stops at the end of the line with every token stored, or stops full with 15 stored and the 16th token ahead, or stores the next token and moves past it, with the remaining tokens being exactly those after the new position |
| Monitor.ParseArgs | kern/monitor.c:111-129 | argv points at the starts of the tokens in order; with fewer than 16 tokens all are stored, argv is NULL-terminated and every separator of the line is NUL; at a 16th token the loop stops with 15 stored and separators overwritten only up to that token |
| Monitor.RunCmd | kern/monitor.c:103-137 | 16 or more tokens give 0 and no command runs; an empty or all-separator line gives 0; otherwise the first table entry named by the first token runs on the argument strings and its result is returned, and an unknown name gives 0 |
| Monitor.Rewritten | kern/monitor.c:166 | the in-place rewrite maps 'a'..'f' to the chars 10..15 above '0' and leaves every char below 'a' alone |
| Monitor.Xtoi | kern/monitor.c:162-171 | the result is the 32-bit fold of the chars after the first two up to the NUL, and exactly those chars are rewritten in place |
| Monitor.RewriteDigit | kern/monitor.c:166-167 | one step of the loop rewrites only the char it reads, as Rewritten says, and yields that char's signed value after the rewrite |
| Monitor.XtoiIsHex | kern/monitor.c:162-171 | on `0x` followed by digits and lower-case a-f, the result is the base-16 value modulo 2^32 |
| Monitor.XtoiUpperCase | kern/monitor.c:166-167 | upper-case digits are not recognised: a letter 'A'..'F' anywhere in the digits is left as it is and adds 17..22 (its distance from '0'), not 10..15 |
| SetmBits.SetmKeepsOtherBits | kern/monitor.c:209-212 | the update changes no bit outside the selected permission |
| SetmBits.SetmSelectedBit | kern/monitor.c:209-212 | mode '0' clears the selected bit; any other mode sets it |
| SetmBits.SetmNoBit | kern/monitor.c:209-212 | with no bit selected, the entry is unchanged in either mode |
| SetmBits.SetmUnknownFlag | kern/monitor.c:205-212 | an unknown flag leaves the entry exactly as it was |
| SetmBits.Setm | kern/monitor.c:205-212 | the page-table entry becomes the updated word for the given mode and flag, and no other entry changes |

## Left out

- Page-fault delivery is not modelled: `set_pgfault_handler`, the assembly
  upcall `_pgfault_upcall` and the exception-stack switch. `PgFault` is
  called directly with the fault address and error code. The upcall is a
  plain number (`entry`).
- The child's `thisenv` fix-up after `sys_exofork` is not modelled. It
  makes one read-only call, `sys_getenvid`, which the call log does not
  record, and writes a user-level pointer.
- CowFork.Fork: its exact final state and call log assume that no page
  fault happens while `fork` runs. In the real program the parent's user
  stack page (the page below `USTACKTOP`) lies inside the walked range and
  is writable, so the walk marks it copy-on-write, and the parent's next
  push onto its stack faults. The handler then gives that page a private
  writable frame, allocates one more frame and makes three more calls
  between the walk's calls and the final ones. The model states this
  handler run separately, as `PgFault` and `PgFaultIsolated`.
- `sfork`, user/testpriority_low.c, frame reference counts and scheduling
  are not modelled.
- The result of `sys_env_set_pgfault_upcall` is ignored, as in the source.
  `Fork` therefore promises only that the child's upcall is the entry or
  unset.
- The kernel side of the system calls is not part of this model. Its
  behaviour is stated as the contracts of `Syscalls.Kernel`, with failure
  as a nondeterministic choice.
- The child that `sys_exofork` creates starts with an empty user address
  space and no page tables. This is what fork's walk relies on.
- The layout constants (`UTEXT`, `PFTEMP`, `UXSTACKTOP`) and the error
  codes are the standard JOS values. inc/memlayout.h and inc/error.h are
  not part of this model.
- Through `uvpt`, a page-table entry shows only its permission bits. The
  frame is kept beside them, so the frame-number bits of the word are not
  modelled.
- CowFork.PgFault: it does not model the copy through `PFTEMP` byte by
  byte; `memcpy` of one page is the single step `CopyPage`.
- Console output (`cprintf`), `readline` and the monitor loop are not
  modelled. Neither are `mon_help`, `mon_kerninfo`, `mon_backtrace`,
  `showmappings`, `showvm`, `pprint` and setm's argument handling and page
  walk. The command handlers are function values from argc and the
  argument strings to an int. They do not receive the trap frame and
  cannot change the buffer.
- `strcmp` is string equality and `strchr(WHITESPACE, c)` is membership in
  `"\t\r\n "`. Both are from lib/string.c, which is not part of this model.
- The buffer's chars are assumed to be 8-bit C chars (code points below
  256): `Xtoi` requires this of the whole buffer, not only of the chars
  it reads. On i386 a char is signed, so a byte of
  128 or more compares below 'a'.
- Monitor.Xtoi: it reads from two chars after the string's start, as the
  source does. It requires a NUL at or after that point and does not
  model a read past a string shorter than two chars.
- SetmBits.Setm: the entry is an element of an array of words. How
  `pgdir_walk` finds or creates it is not modelled.
