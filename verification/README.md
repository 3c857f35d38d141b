# A model of bionic's dynamic linker

The dynamic linker loads libraries and what they need, groups them by namespace, counts references between the
groups, and takes a group down when nothing refers to it any more. Around this core it keeps a shadow for Control Flow
Integrity, allocates its lists from a block allocator of its own, unpacks relocations, checks version definitions and
reads a configuration file. This project models these parts and proves what holds of them over all inputs and all runs.
Every public entry point of the loader holds one lock, so the loader is modelled as a sequential object.

How the parts build on each other:

- `Soinfo` has the state of the loader and its invariant `Inv`. Its centre is the balance of accounts: the reference
  count of a group root is the number of open handles, counted dso-handles and dependency edges from other linked groups
  into the group, plus the references that a running unload has still to release.
- `Peeling`, `UnloadLoop`, `Teardown`, `Leftovers` and `Unloading` are about unloading and what it leaves behind. `Walk`,
  `Groups`, `Linking`, `Opening`, `Plans`, `Sealing`, `FindLibraries` and `FailedOpen` are about opening: `Opening` is
  step 1, and `Plans` says what it makes of a plan of resolutions; `Groups` and `Linking` are steps 5 and 6, `Sealing` is
  step 7. `References` is about handles. `Linker` has the entry points and the runs, and `InitialLink` shows that the
  initial link leaves the loader in order.
- `Walk`, `WalkOrder` and `SymbolLookup` are about the breadth-first walk and `dlsym`; `Worklist` and `LoadOrder` about steps 1 and 2
  of `find_libraries`.
- `CfiFormat`, `CfiWriter`, `CfiProcess`: the shadow. `Blocks`, `BlockAllocator`: the allocator. `LinkedCells`,
  `LinkedList`: lists that share it. `Relr`, `RelrEncoding`: packed relocations. `Verdef`: version definitions.
  `ConfigFile`, `ConfigMeaning`, `DefaultNamespaces`: from the text of the configuration to namespaces.

Where a promise does not hold of the code as it is, the model follows the code, shows an input, and proves exactly when
the promise does hold:

- A group can be torn down without some of its members, which then point to a root that is gone. This happens exactly if
  members other than the root depend on each other in a cycle, if something outside depends on a member, or if a
  member is not reachable from the root (`Peeling.TeardownComplete`, `Teardown.NoneStranded`, `Peeling.CycleStays`).
- A failed open can leave libraries behind that it has loaded. If nothing was left behind before, this happens exactly if
  libraries other than the one that was asked for need each other in a cycle (`Leftovers.UndoneExactly`,
  `Linker.Linker.Open`, with three such libraries in `FailedOpen.CycleLeftBehind`).
- What was left behind never goes away (`Leftovers.Tidy`), and a later open that comes across it does not end well: it
  fails a CHECK if the library was never linked, and writes to a reference count in freed memory if its group root is gone,
  after which nothing is defined. Both are told before the call (`FindLibraries.Verdict`). A run that starts without
  leftovers ends without them exactly if every teardown took all that hung on its root (`Linker.Linker.Run`).
- The test for values of the shadow that wrap around misses a wrap if the first value is below one step
  (`CfiFormat.Overflow`, `CfiFormat.FirstValue`, `CfiFormat.MissedWrap`). The comment beside the test says every wrap
  falls back to unchecked.
- The writer prepares its pages empty, so the fall-back for an element that is taken already is never used, and the values
  of a library that is mapped over another one replace the others (`CfiWriter.ShadowWrite.constructor`,
  `CfiWriter.CfiShadowWriter.Fill`).
- Step 1 of `find_libraries` ends for every search exactly if files without device or inode need nothing
  (`Worklist.Ends`, `Worklist.NeverEnds`).
- A configuration that was read successfully can still make the set-up of namespaces abort, or lose a link: exactly if
  the name of a linked namespace contains a NUL, or a list of libraries starts with one (`DefaultNamespaces.StartUp`, with
  a configuration for each in `DefaultNamespaces.NulAborts` and `DefaultNamespaces.NulRefused`).
- A namespace whose properties say that it is isolated or visible is so exactly if its name is not listed a second time
  (`DefaultNamespaces.FlagsHold`, with such a list in `DefaultNamespaces.ListedTwice`).

## Model

| member | source | states |
|---|---|---|
| Soinfo.ZeroMeansUnreferenced | linker/linker.cpp:1999-2009 | When nothing is held on a group that is not flagged to stay, no handle, no counted dso-handle, no pending reference and no edge of a library of another group refers to any member. |
| Soinfo.ReferredRootIsLive | linker/linker.cpp:1988-1999 | Whatever is referred to by a handle, a dso-handle or a pending release has a group root that is loaded and whose count is above zero. |
| Soinfo.TotalDrops | linker/linker.cpp:1999 | A decrement lowers the sum of all reference counts by one, the measure on which the mutual recursion ends. |
| Peeling.DependantsFirst | linker/linker.cpp:1912-1950 | In an unload order every library but the root comes after all of its dependants, so destructors run dependants first. |
| Peeling.TeardownComplete | linker/linker.cpp:1905-1938 | Only libraries reachable from the root are taken, and all of them are taken if and only if no cycle avoids the root and nothing outside depends on them. |
| Peeling.CycleStays | linker/linker.cpp:1931 | A concrete group with a cycle of two members behind the root: the root alone is taken. |
| UnloadLoop.TakeEdge | linker/linker.cpp:1919-1934 | One turn of the inner loop takes the first edge away on both sides, queues its target exactly if it is a member of the group whose last dependant is gone, and puts it aside exactly if it is of another group. |
| UnloadLoop.TakeEdges | linker/linker.cpp:1919-1934 | The inner loop takes all edges of one library away on both sides, queues exactly the members whose last dependant is gone, and collects the edges that leave the group in order. |
| UnloadLoop.TakeApart | linker/linker.cpp:1905-1938 | The unload loop yields an unload order that cannot be continued, severs exactly the edges of the libraries taken, and collects all edges out of the group. |
| Teardown.FreeKeepsInv | linker/linker_soinfo.cpp:524-556 | Freeing a library that nothing refers to keeps the invariant. |
| Teardown.FreeAll | linker/linker.cpp:1952-1965 | The loop frees the libraries of the unload list one after the other. |
| Teardown.FreeSeqInv | linker/linker.cpp:1952-1965 | Freeing all libraries of an unload list keeps the invariant, with whatever is pending. |
| Teardown.NoneStranded | linker/linker.cpp:1905-1965 | A teardown takes every member of the group if and only if the group is collectable and hangs together. |
| Leftovers.TakenTidily | linker/linker.cpp:1905-1965 | The teardown of a linked group removes no leftover; it adds none if the group is collectable and hangs together, and otherwise there is one afterwards. |
| Leftovers.UndoneExactly | linker/linker.cpp:1870-1885 | After a failed open that started without leftovers, exactly the libraries of before are loaded if and only if no cycle among the new ones avoids the library that was asked for. |
| Leftovers.UndoneTidily | linker/linker.cpp:1870-1885 | A failed open removes no leftover, whatever it came across; it adds none exactly if what it has loaded can be taken with its root. |
| Leftovers.KnotIsNotTaken | linker/linker.cpp:1925-1933 | Unlinked libraries that hold each other are never taken, whatever is unloaded around them. |
| Unloading.TearDown | linker/linker.cpp:1905-1965 | Takes a group down: the root is gone, exactly the recorded libraries are gone, the counts and dependants of all that stay are the same, the accounts balance with the outgoing references pending, and the teardown of this root in this state joins a history in which every teardown was safe; the teardown of an unlinked library takes no linked one. |
| Unloading.NotFreedAgain | linker/linker.cpp:1952-1965 | A library that is unloaded was never unloaded before. |
| Unloading.HistoryGrows | linker/linker.cpp:1892-1979 | Over whole runs: the libraries that are gone are exactly those of the recorded teardowns, each of them once. |
| Unloading.Release | linker/linker.cpp:1988-1999 | A pending reference can be released: its root is loaded, the count is positive, and the invariant holds with one reference less. |
| Unloading.SoinfoUnload | linker/linker.cpp:1981-2010 | Ends on every graph. If the reference was the last on a group that may go, the group's teardown is on record and its root is gone; if not, the count is one less and nothing else changes. Never lets a count underflow, keeps the accounts with what the callers have pending, leaves no group loaded that nothing refers to, and leaves libraries behind exactly as told by the teardowns on record. |
| Unloading.SoinfoUnloadImpl | linker/linker.cpp:1892-1979 | Takes the group down unless it is flagged to stay, in which case nothing changes; afterwards no group is loaded that nothing refers to. |
| Unloading.ReleaseAll | linker/linker.cpp:1967-1974 | Releases the pending external references in order, all of them on libraries that are loaded, with the same guarantees. |
| References.OpenHandleInv | linker/linker.cpp:1887 | One more handle and one more on the root's count keep the invariant. |
| References.CloseHandleInv | linker/linker.cpp:2413-2432 | A handle given back becomes a pending reference; only linked libraries have handles. |
| References.StartHandleInv | linker/linker.cpp:2018-2031 | The first reference on a dso-handle counts on the group of the library that contains the address. |
| References.StopHandleInv | linker/linker.cpp:2040-2048 | The last one becomes a pending reference on that group. |
| References.OwnerFound | linker/linker.cpp:2044-2052 | The library of a counted dso-handle is always found, and it is linked. |
| Walk.WalkDependencies | linker/linker.cpp:715-744 | The loop ends on cyclic graphs and computes the order of the walk. |
| Walk.WalkIsBreadthFirst | linker/linker.cpp:715-744 | No library is visited twice; a walk that is not stopped visits exactly what is reachable through libraries that were not skipped, in nondecreasing distance from the root. |
| WalkOrder.WalkInOrder | linker/linker.cpp:715-744 | A walk that is not stopped visits one library before another exactly by where they are come across first: below an earlier library, or earlier among the children of the same one. |
| WalkOrder.WalkIsWalk | linker/linker.cpp:715-744 | Together: the order of a walk starts at the root, has everything that is reachable through libraries that were not skipped, once each, and in that order. |
| SymbolLookup.DlsymHandleLookup | linker/linker.cpp:747-776 | Finds the first library after `skip_until`, in the order of a breadth-first walk that follows the children of what is accessible and of everything up to `skip_until`, that is accessible and defines the symbol, and nothing if and only if there is none. |
| SymbolLookup.StopsAtFirst | linker/linker.cpp:756-773 | A walk that stops does so at the first library that matches. |
| Groups.AccessibleMeans | linker/linker_namespaces.cpp:73-119 | A library is accessible in a namespace exactly if the namespace is its own or one of its secondary ones, or that of a library that needs it. |
| Groups.LocalGroup | linker/linker.cpp:1789-1801 | The local group of a root is what the root reaches through accessible libraries. |
| Groups.CollectRoots | linker/linker.cpp:1751-1786 | The roots are the first library and every unlinked one across a namespace boundary, none of them twice, in the order in which the boundaries are come across. |
| Groups.LinkGroup | linker/linker.cpp:1803-1829 | One group: every library of its namespace that is neither linked nor relocated is relocated under this root; it fails exactly if one of them cannot be. |
| Groups.LinkGroups | linker/linker.cpp:1788-1834 | All groups: succeeds if and only if no unlinked library that some root leads fails to link. |
| Groups.LinkCoverage | linker/linker.cpp:1751-1834 | Every newly loaded library is relocated exactly once, and its group root is the first root in order that has its namespace and whose walk reaches it. |
| Linking.LinkStep | linker/linker.cpp:1751-1834 | Steps 5 and 6 fail exactly if a library of this call cannot be linked; otherwise each of them has a group whose root is of this call and leads itself, namely the first root in order that has its namespace and whose walk reaches it, and no other group changes. |
| Linking.GroupsAreNeeded | linker/linker.cpp:1759-1786 | Every new group but that of the library asked for is led by a library that one of another new group needs, so that step 7 takes a reference on it. |
| Linking.FailureIsFresh | linker/linker.cpp:1807-1833 | What is linked in step 6 is exactly what this call has loaded. |
| Opening.Expand | linker/linker.cpp:1596-1650 | The loop of step 1 computes what the plan of resolutions makes of the state and of the list of tasks. |
| Plans.StepOnePlanned | linker/linker.cpp:1306-1313 | Step 1 succeeds exactly if the plan resolves as many tasks as the name and all DT_NEEDED entries of the files together. Then every new library has exactly as many children as its file has DT_NEEDED entries, in order, each of them what its own entry was resolved to, and it has the namespace, flag and addresses of its entry. |
| Opening.StepOneInv | linker/linker.cpp:1596-1650 | Step 1 keeps the invariant, however the tasks are resolved and wherever it fails. |
| Opening.StepOneStarted | linker/linker.cpp:1596-1650 | Step 1 adds only new, unlinked libraries and changes nothing about the others; each was loaded for an earlier one, and their children are what their tasks were resolved to, in order. |
| Sealing.TasksCountEdges | linker/linker.cpp:1849-1857 | The increments of step 7 are, root by root, the new edges between groups. |
| Sealing.TakeRefs | linker/linker.cpp:1849-1857 | The loop of step 7 adds exactly these, and fails exactly if one of them is on a root that is gone. |
| Sealing.SealedInv | linker/linker.cpp:1836-1857 | After step 7 the invariant holds again. |
| Sealing.SealedUsed | linker/linker.cpp:1836-1857 | After step 7 nothing refers to at most one group that may go: the one the handle will be on. |
| FindLibraries.DanglesExactly | linker/linker.cpp:1849-1857 | Step 7 leads to a group root that is gone exactly if a task but the first was resolved to a leftover. |
| FindLibraries.LinkAndCount | linker/linker.cpp:1751-1860 | Steps 5 to 7 fail exactly if a new library cannot be linked, touching no linked library then, and lead to a root that is gone exactly over a leftover; otherwise the new libraries are linked in groups of their own and the invariant holds. |
| FindLibraries.FindLibraries | linker/linker.cpp:1549-1861 | How the whole call ends is told by the state and the plan before it: it fails over a library that is not found, loaded or linked, aborts over an unlinked leftover, leads to a freed root over any other leftover, and otherwise succeeds. |
| Linker.Linker.Open | linker/linker.cpp:1863-1890 | The outcome is the one told before the call. On success there is exactly one more handle, on the library asked for, every new library has the children, namespace, flag and addresses that the plan gives it, and is in the group of the first root in order whose walk reaches it. After a failed open every linked library has its group, its count and its handles back and no other is linked; without leftovers from before, exactly the libraries of before are loaded if and only if the new ones contain no cycle that avoids the one asked for. Either way the invariant holds, and leftovers are told by the teardown on record. |
| Linker.Linker.Close | linker/linker.cpp:2413-2432 | For a handle that is not valid nothing changes. If the handle was the last reference on a group that may go, the group is gone and its teardown on record, and if not, the count is one less and nothing else changes. What is left behind is told by the teardowns on record. |
| Linker.OneTooMany | linker/linker.cpp:2413-2432 | Closing a handle once more than it was opened makes a count smaller than what is held on its group: the accounts are wrong from then on. |
| Linker.Linker.IncrementDso | linker/linker.cpp:2012-2032 | The counter goes up by one, and nothing but counts changes. The call aborts exactly on overflow or if no library contains the address, and uses a missing group root exactly if that library is a leftover. |
| Linker.Linker.DecrementDso | linker/linker.cpp:2034-2055 | The counter goes down by one. When it was the last, the counter is erased, and the group of the library that contains the handle goes exactly if that was its last reference; otherwise its count is one less. The call aborts exactly for an unknown handle. |
| Linker.Linker.Run | linker/linker.cpp:1863-2055 | Every run of opens, failed opens, closes and dso-handle calls keeps the invariant: accounts balance, every teardown was safe, nothing was unloaded twice, no group is loaded that nothing refers to unless it is flagged to stay, and leftovers never go away. From a state without leftovers, there are none at the end if and only if every teardown took all that hung on its root. |
| Linker.CleanOpens | linker/linker.cpp:1549-1861 | Without leftovers an open either succeeds or fails. |
| Linker.Reopened | linker/linker.cpp:1549-1890 | Opening a loaded library changes no group: it aborts exactly if the library was never linked, leads to a freed root exactly if its root is gone, and otherwise succeeds. |
| FailedOpen.CycleLeftBehind | linker/linker.cpp:1931 | Three libraries, from every state: the open fails, and two of them that need each other are left behind. |
| InitialLink.Link | linker/linker_main.cpp:469-481 | The initial link succeeds exactly if everything is found, loaded and linked; then the executable leads its own group and has one child for each of its names, every other library has the children, namespace and addresses that the plan gives it, the invariant holds, and nothing is left behind. |
| InitialLink.Boot | linker/linker_main.cpp:469-481 | A process has a loader in order exactly if its initial link succeeds. |
| InitialLink.AloneSucceeds | linker/linker_main.cpp:482-487 | An executable that needs nothing, loaded first, always starts. |
| Worklist.Progress | linker/linker.cpp:1596-1650 | Every round uses up a file not seen before, a forced load, or a load request without adding one. |
| Worklist.Expand | linker/linker.cpp:1596-1650 | The loop of step 1 ends for cyclic needs; each file is loaded into a namespace at most once unless forced, and no more is loaded than there are files and forced loads. The tasks are the names of the caller and then, library by library, one for everything that a new one needs, on its behalf and in its namespace; each led to a library that is loaded, to a file that is the same as one that is, or to a new library. |
| Worklist.Ends | linker/linker.cpp:1596-1650 | Every search ends, from every state, if unrecognizable files need nothing. |
| Worklist.NeverEnds | linker/linker.cpp:1114-1117 | A file without device or inode that needs something, and is found under that name, is loaded for ever. |
| LoadOrder.LoadList | linker/linker.cpp:1652-1669 | The load list holds each unlinked library that is not the executable once, where it first occurs. |
| LoadOrder.Shuffle | linker/linker.cpp:1535-1543 | The in-place loop computes the permutation that the random numbers choose, and keeps the multiset. |
| LoadOrder.EveryPermutation | linker/linker.cpp:1535-1543 | Every permutation is the result of some random numbers. |
| LoadOrder.ShuffledPermutation | linker/linker.cpp:1535-1543 | Every result is a permutation. |
| LoadOrder.ChoicesTold | linker/linker.cpp:1535-1543 | The random numbers can be told from the result: no permutation is more likely than another. |
| CfiFormat.ShadowLoad | libdl/libdl_cfi.cpp:46-52 | Reads the element of an address in range and the invalid marker beyond, never outside the shadow. |
| CfiFormat.RoundTrip | libdl/libdl_cfi.cpp:58-71 | The decoder finds the `__cfi_check` of the library, with the Thumb bit on arm, if and only if the exact value fits into an element. |
| CfiFormat.ExactIsRegular | linker/linker_cfi.cpp:107-112 | From the first element on no value is the invalid or the unchecked marker. |
| CfiFormat.Overflow | linker/linker_cfi.cpp:118-131 | A value that does not fit becomes unchecked exactly if the first value is a step or more; otherwise it leads to another address. |
| CfiFormat.FirstValue | linker/linker_cfi.cpp:107-112 | For a `__cfi_check` inside its library the first value is a step or more exactly on the first three pages of an element. |
| CfiFormat.MissedWrap | linker/linker_cfi.cpp:121 | A concrete library whose wrap is missed. |
| CfiWriter.ShadowWrite.constructor | linker/linker_cfi.cpp:50-62 | The prepared pages hold what the shadow holds before and after the target, and the invalid marker inside. |
| CfiWriter.ShadowWrite.Commit | linker/linker_cfi.cpp:72-78 | Elements outside the target keep their value, those inside get the new one. |
| CfiWriter.CfiShadowWriter.AddConstant | linker/linker_cfi.cpp:85-91 | Sets exactly the elements of a range. |
| CfiWriter.CfiShadowWriter.Fill | linker/linker_cfi.cpp:118-131 | The loop with the running 16-bit value stores the closed form of the values. |
| CfiWriter.CfiShadowWriter.Add | linker/linker_cfi.cpp:101-132 | Writes the values from the first element at or above `__cfi_check` on, and nothing else. |
| CfiWriter.CfiShadowWriter.AddLibrary | linker/linker_cfi.cpp:162-191 | Fails exactly for a check function that is unaligned or not Thumb on arm; otherwise only elements of the library change. |
| CfiWriter.CfiShadowWriter.MaybeInit | linker/linker_cfi.cpp:211-244 | Maps the shadow exactly if a library uses it and libdl is there, and then shows all loaded libraries, or all before the first that is refused. |
| CfiWriter.CfiShadowWriter.AfterLoad | linker/linker_cfi.cpp:246-261 | With a mapped shadow, shows the new library, whether or not it was shown before; without one, maps it exactly if the new library uses it; a refused library leaves a mapped shadow as it was. |
| CfiWriter.CfiShadowWriter.BeforeUnload | linker/linker_cfi.cpp:263-270 | Hides the library and keeps all others. |
| CfiWriter.CfiShadowWriter.InitialLinkDone | linker/linker_cfi.cpp:272-276 | Succeeds exactly if no library uses the shadow, or libdl is there and all libraries are acceptable; then the shadow is mapped exactly if some library uses it, and is about all of them. |
| CfiProcess.Process.Start | linker/linker_main.cpp:503 | The same for a process: it starts with a shadow about its libraries, or without one if none uses it. |
| CfiProcess.Process.Load | linker/linker_cfi.cpp:246-261 | After a load a mapped shadow is about exactly the loaded libraries, and while there is none no loaded library uses it. After a failed load, wherever it failed and whatever was unloaded again, the same holds but for libraries that were left behind, unless one of these is refused. |
| CfiProcess.Process.Close | linker/linker_cfi.cpp:263-270 | The same after an unload. |
| CfiProcess.LazyIsEager | linker/linker_cfi.cpp:211-276 | Two processes with the same libraries have the same shadow at every element that no leftover covers, whenever each of them mapped it. |
| CfiProcess.LazyIsAllEager | linker/linker_cfi.cpp:211-276 | If nothing was left behind their shadows are the same. |
| CfiProcess.Read | libdl/libdl_cfi.cpp:46-52 | Through writer and reader, for every address: in a library without `__cfi_check` it reads 1; below the `__cfi_check` of its library it reads 0; from there on it reads the distance in pages of 4096 bytes from the end of the block of 262144 bytes, plus 2, as far as that fits into 16 bits; and where there is no library it reads 0. |
| CfiProcess.Resolve | libdl/libdl_cfi.cpp:46-71 | Through writer and reader: every address at or above `__cfi_check` whose value fits leads to the `__cfi_check` of its own library. |
| Blocks.BlocksApart | linker/linker_block_allocator.cpp:44-47 | A word belongs to one block only: blocks of all pages are pairwise disjoint. |
| Blocks.LayoutFor | linker/linker_block_allocator.cpp:57-61 | The block size is the requested one rounded up, and the blocks of a page fill it but for less than one block. |
| BlockAllocator.PopSound | linker/linker_block_allocator.cpp:68-81 | Handing out the first free block keeps the free list, the partition into live and free blocks and their number, with the block zeroed and all live blocks unchanged. |
| BlockAllocator.PushSound | linker/linker_block_allocator.cpp:97-106 | The same for giving a block back. |
| BlockAllocator.PageSound | linker/linker_block_allocator.cpp:117-135 | The same for a new page, which becomes one run. |
| BlockAllocator.Allocator.constructor | linker/linker_block_allocator.cpp:57-61 | An allocator without pages is in order. |
| BlockAllocator.Allocator.Alloc | linker/linker_block_allocator.cpp:63-84 | Returns a zeroed block of a page that was not live, and changes no live block; the count of live blocks plus the free ones stays what all pages hold. |
| BlockAllocator.Allocator.Free | linker/linker_block_allocator.cpp:86-107 | For a live block neither check fails; the block becomes free and no other changes. |
| BlockAllocator.Allocator.FindPage | linker/linker_block_allocator.cpp:137-151 | Finds the page of a live block, so the fatal branch is not reached. |
| BlockAllocator.Allocator.Purge | linker/linker_block_allocator.cpp:153-166 | Unmaps everything exactly if no block is live. |
| BlockAllocator.Allocator.Write | linker/linker_block_allocator.cpp:49-52 | What users write into their blocks disturbs neither the lists nor other blocks. |
| LinkedList.RemoveLoop | linker/linked_list.h:185-209 | The loop is an order-preserving filter and leaves head, tail and links of the shorter list right. |
| LinkedList.ClearLoop | linker/linked_list.h:155-165 | Frees all entries and leaves an empty list with its header. |
| LinkedList.FindIf | linker/linked_list.h:217-226 | Finds the first element that satisfies the predicate, or nothing exactly if there is none. |
| LinkedList.CopyToArray | linker/linked_list.h:246-253 | Copies a prefix, as long as there is room, and nothing beyond. |
| LinkedList.LocalCount | linker/linked_list.h:277-282 | An operation on one list changes the number of allocated cells by the change of its own length and header. |
| LinkedList.Replaced | linker/linked_list.h:95-165 | An operation on one list keeps all others and the sum over all lists. |
| LinkedList.Lists.Make | linker/linked_list.h:95 | A new list is empty and allocates nothing. |
| LinkedList.Lists.PushFront | linker/linked_list.h:112-121 | Prepends to one list and leaves the others. |
| LinkedList.Lists.PushBack | linker/linked_list.h:123-134 | Appends to one list and leaves the others. |
| LinkedList.Lists.PopFront | linker/linked_list.h:136-149 | Takes the first element off, or nothing off an empty list. |
| LinkedList.Lists.RemoveIf | linker/linked_list.h:185-209 | Filters one list and leaves the others. |
| LinkedList.Lists.Clear | linker/linked_list.h:155-165 | Empties one list and leaves the others. |
| LinkedList.Lists.Destroy | linker/linked_list.h:96-101 | Empties one list and frees its header. |
| LinkedList.Lists.Move | linker/linked_list.h:103-106 | The new list has what the old one had, and nothing is allocated or freed. |
| LinkedList.Lists.AllFreed | linker/linked_list.h:96-101 | Once all lists are destroyed no cell is allocated. |
| Relr.RelocateRelr | linker/linker.cpp:2843-2876 | On every stream the loop does to memory what the stream means: an even entry is an address, bit `k` of an odd one the word `k - 1` words above the base. |
| Relr.ApplyBitmap | linker/linker.cpp:2862-2870 | The shifting loop relocates exactly the words of the set bits, also when it ends early. |
| Relr.Apply | linker/linker.cpp:2826-2831 | Adds the load bias to one word, modulo the size of a word. |
| RelrEncoding.RelocatedMeans | linker/linker.cpp:2826-2831 | On little-endian memory, written out: the word at offset plus bias, modulo the size of a word, becomes itself plus bias, and every other byte is kept. |
| RelrEncoding.EntryIs | linker/linker.cpp:2853-2870 | An even entry is an offset; an odd one stands for exactly the words `k - 1` words above the base of its set bits `k`. |
| RelrEncoding.StreamIs | linker/linker.cpp:2850-2874 | A stream is decoded entry by entry; the base is then behind the word that was named, or behind the 31 or 63 words that the bits are about. |
| RelrEncoding.RoundTrip | linker/linker.cpp:2840-2876 | For every ascending list of aligned words there is a stream that means exactly this list. |
| RelrEncoding.RelocatesExactly | linker/linker.cpp:2843-2876 | On that stream, with addresses written out: the word at `4 * q + bias` or `8 * q + bias`, modulo the size of a word, of each `q` of the list becomes itself plus bias, and every other byte of memory keeps its value. |
| RelrEncoding.RelocateEncoded | linker/linker.cpp:2843-2876 | The loop does this to memory. |
| Verdef.ForEachVerdef | linker/linker.cpp:2701-2747 | The walk fails at the first bad record unless it has stopped before. |
| Verdef.Validate | linker/linker.cpp:2776-2781 | Succeeds if and only if no record is bad. |
| Verdef.FindVersionIndex | linker/linker.cpp:2749-2773 | Reaches the fatal branch exactly if a bad record comes before any match, and otherwise returns the index of the first non-base definition with hash and name, or the global index. |
| Verdef.ValidateThenFind | linker/linker.cpp:2749-2781 | After one successful validation every search ends well. |
| Verdef.IndexUnique | linker/linker.cpp:2749-2773 | The index that is specified is unique. |
| ConfigFile.SplitJoined | linker/linker_config.cpp:116-132 | The lines of a file make up the file. |
| ConfigFile.SplitUnbroken | linker/linker_config.cpp:116-132 | No line contains a line break. |
| ConfigFile.SplitOnly | linker/linker_config.cpp:116-132 | There is no other way to split a text like this. |
| ConfigFile.ConfigParser.NextLine | linker/linker_config.cpp:116-132 | Returns the lines one by one, the last one also if it is empty. |
| ConfigFile.ConfigParser.NextToken | linker/linker_config.cpp:70-109 | Returns the tokens of the lines that are not blank; its check fires exactly when it is called again after the end. |
| ConfigMeaning.ClassifyIs | linker/linker_config.cpp:70-103 | What a line says, exactly: the part before the first `#`, without white space around it, is empty, a name in brackets, a name and a value around the first `=` if there is no `+=`, the same around the first `+=`, or invalid. |
| ConfigMeaning.DirectsIs | linker/linker_config.cpp:216-265 | A line points the binary to a section exactly if it assigns to `dir.` and the name of the section, and the value without slashes at its end is not empty and contains the binary. |
| ConfigMeaning.DoneStands | linker/linker_config.cpp:299-334 | A property is there exactly if a line of the section is about it. Its value starts at the last line that assigns to it or, without one, at the first that appends. It is the values from there on joined by commas for names in `.links` and `.namespaces`, by colons for names in `.paths`, `.shared_libs`, `.whitelisted` and `.allowed_libs`, and the first of them for all other names. |
| ConfigMeaning.MeaningMeans | linker/linker_config.cpp:195-346 | The section that counts is the first one of its name after the first line that points the binary to it, before any section; it ends at the next one. There are properties exactly if there is such a section, and they are what its lines say. |
| ConfigMeaning.ParseConfigFile | linker/linker_config.cpp:179-346 | The three loops over the text find these properties, and the check against reading past the end never fires. |
| ConfigFile.OwnLines | linker/linker_config.cpp:300-334 | What a property is depends on its own lines only. |
| ConfigFile.LastAssignment | linker/linker_config.cpp:300-308 | An assignment makes everything before it void. |
| DefaultNamespaces.Config.Read | linker/linker_config.cpp:457-598 | Succeeds exactly if every link leads to a namespace of the configuration and says in exactly one way which libraries it is for; then the links and flags are those of the properties, a name that is listed again leaves an empty configuration, and otherwise nothing is left. |
| DefaultNamespaces.InitDefaultNamespaces | linker/linker.cpp:3692-3742 | A lookup fails exactly for a linked name with a NUL, a link is refused exactly for a list that starts with one, and otherwise every link of the configuration is made in order; the flags of a namespace are those of the first configuration of its name, and those of the default namespace the ones that are found. |
| DefaultNamespaces.AbortsExactly | linker/linker.cpp:3728-3735 | For a configuration as it is read, a lookup fails if and only if some link of the properties is to a name with a NUL. |
| DefaultNamespaces.RefusesExactly | linker/linker.cpp:2589-2593 | A link is refused if and only if some link of the properties is for a list that starts with a NUL. |
| DefaultNamespaces.MadeExactly | linker/linker.cpp:3728-3742 | Field by field, both ways: a link has been made exactly if it is from a configured name, cut at a NUL, to an entry of that name's `.links`, is for all libraries exactly if that pair's `allow_all_shared_libs` is `true`, and otherwise for the parts between colons of that pair's `shared_libs`, cut at a NUL. |
| DefaultNamespaces.GetStringsIs | linker/linker_config.cpp:358-372 | The list of a property has the parts between its commas, in order and without white space around them, and is empty without the property. |
| DefaultNamespaces.FlaggedExactly | linker/linker.cpp:3697-3726 | The default namespace is isolated and visible as its properties say; any other is so exactly if its properties say so and its name is not listed again. |
| DefaultNamespaces.FlagsHold | linker/linker_config.cpp:475-480 | The flags of a namespace are those of its properties if and only if its name is not listed again or they set none. |
| DefaultNamespaces.ListedTwice | linker/linker_config.cpp:475-480 | A namespace that is listed twice and is not isolated although its property says so. |
| DefaultNamespaces.MeantFor | linker/linker.cpp:2595-2600 | The names of a link that is made, joined again, are its list up to a NUL. |
| DefaultNamespaces.StartUp | linker/linker.cpp:3668-3742 | From the text of the file on, exactly: there is no configuration if no section is for the binary or it cannot be read; a lookup fails if a linked name has a NUL; a link is refused if a list starts with one; otherwise exactly the links that the properties ask for are made, and the namespaces have their flags. The properties are what the lines of the file say, and without a NUL in the text nothing fails. |
| DefaultNamespaces.NulAborts | linker/linker.cpp:3733-3734 | Properties that can be read, and whose links cannot be looked up. |
| DefaultNamespaces.NulRefused | linker/linker.cpp:2589-2593 | Properties that can be read, with a link that is refused. |

## Left out

- Constructors and destructors of libraries, which could call back into the loader while it runs.
- InitialLink.Link: the libraries that are there before the executable, the linker itself and the vDSO, are taken as flagged to stay. The reference that an executable without needs starts with is left out.
- `dlopen` of no name, which takes a reference on the head of the list of libraries.
- Linker.Linker.Close: what becomes of a loader after a handle was closed more often than it was opened is not followed; a run of the model ends there, as it does when a call aborts.
- Freed `soinfo` objects are not reused: libraries are numbers that are never given out again, and the fields of libraries are maps in one state that the methods pass on as a value, so that aliasing of lists is not captured in the loader's core (it is in `LinkedList`).
- Overflow of a group's reference count, which is a `size_t`.
- Path search, zip archives, reading ELF files, mapping memory, TLS, tagging, debugger and trace hooks: what they decide is left to an environment that may answer anything.
- Namespace rules for names and paths, and steps 3 and 4 of `find_libraries` (preparing images, the global group), beyond whether they fail.
- CfiProcess.Process.Load: nothing is promised after a failed load has left a library behind that the shadow refuses.
- `__cfi_slowpath` and the failure handlers of the CFI run-time; protection of the shadow's pages.
- BlockAllocator.Allocator.Alloc: the address of a new page is an input, as `mmap` decides it; `protect_all` is not modelled.
- LinkedList.Lists.PushFront and the other operations: the addresses of new cells are inputs; the easy readers (`front`, `contains`, `size`, `visit`, iterators) are not modelled.
- The branch of RELR relocation for tagged memory.
- `VersionTracker` and version needs.
- ConfigMeaning.ParseConfigFile: whether the binary lies in a directory, after access and path resolution, is a predicate of the environment; warnings are left out.
- DefaultNamespaces.Config.Read: search and permitted paths, allowed libraries and the target SDK version are left out; whether the version file is in order is an input.
