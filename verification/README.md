# Kernel data structures and security modules, in Dafny

A model, with proofs, of the parts of the repository that are hard to get right:

- the rank-balanced ("weak-AVL") tree and the splay tree of `tree.h`, and the lists and tail queues of `queue.h`, as
  macros that rewrite pointers in place;
- Landlock: how a domain of stacked layers decides a path request (`fs.c`), what merging rulesets means and how it
  counts its references (`ruleset.c`), which task may trace which (`ptrace.c`), and the concurrent protocol that ties
  objects to inodes and unties them (`fs.c`, `object.c`);
- the Lua LSM: how modules are registered, loaded, and unregistered while hooks run and tasks come and go (`lsm.c`), how
  a hook gets its answer from them (`lsm_defs.h`), and the key/value caches with their two indexes (`kvcache.c`);
- the fixed-point iteration of `sched-pelt.c`.

## How it is built

A piece of code that changes memory in place is a class whose methods change fields in the order of the source. Each
method is specified by a mathematical value that the memory stands for, and what the source promises is proved about
that value.

| files | what they are about |
|---|---|
| `Basics` | options, bits, distinct elements |
| `RankTree` | trees, contexts (the way from a hole up to the root), the climbs as recursions over a context, rank rules and order |
| `RankTreeHeap`, `RankTreeSplice` | nodes with pointers and two edge bits; rotations, climbs and the surgery of a removal, in place |
| `RankTreeOps`, `RankTreeUpdate` | lookups, neighbours and their step bounds; insertion, removal, and iterating while removing |
| `SplayShape`, `SplayTree` | the current tree and two side trees of a top-down splay; the operations, on link maps by address |
| `QueueShape`, `Queues` | slots and the elements that they point at; the macros with and without a tail pointer |
| `LandlockPolicy`, `LandlockAccess`, `LandlockWalk`, `LandlockHooks` | the meaning of a domain; the matrix of layer masks; the walk; the hooks that decide |
| `LandlockMerge`, `LandlockCounts`, `LandlockRuleset`, `LandlockPtrace` | what a merge means; reference counts; rulesets and domains in memory; domain scopes |
| `InodeModel`, `InodeInv`, `InodeSteps`, `InodeGet`, `InodePut`, `InodeUnmount`, `InodeSafety`, `InodeCalls` | any number of threads, one atomic step at a time; the invariant; every step keeps it; what follows for every run; what a call returns |
| `LuaState`, `LuaBoard`, `LuaExit`, `LuaHolders` | what is always true of modules, Lua states and hooks; what running hooks see of the list and the counters, store by store; exiting tasks; who holds a module |
| `LuaModules`, `LuaDispatch` | registering and unregistering under interference; the dispatcher, while the list changes |
| `KvOrder`, `KvCache`, `KvStore` | the order of nodes; the two indexes; the operations as updates of a map |
| `Pelt` | the loads of the iteration |

The main results are `RankTreeUpdate.Insert`, `RankTreeUpdate.Remove`, `SplayTree.Head.Splay`,
`LandlockWalk.IsAccessToPathsAllowed`, `LandlockHooks.CheckReferPath`, `LandlockMerge.MergeIsConjunction`,
`LandlockMerge.EnforcedMeans`, `LandlockRuleset.Landlock.MergeRuleset`, `LandlockPtrace.TaskPtrace`, `InodeSafety.Always` with the lemmas after it, `InodeCalls.GetReturns`,
`LuaModules.Lsm.Register`, `LuaModules.Lsm.Unregister`, `LuaDispatch.RunHook`, `KvStore.Store.Set`, `KvStore.Store.ModuleGc`,
`KvStore.Store.DictFree`, the operations of `Queues`, and `Pelt.ConvergedMax`.

Allocation failures, the outcome of a module's Lua function and which tasks are ever busy are parameters; the order in
which a kernel tree is traversed and what other threads do are left to chance.

## Where the code and its comments differ

The model follows the code.

- The comment on `landlock_merge_ruleset` (`admin-guide/LSM/landlock/src/ruleset.c:399-400`) speaks of returning the parent
  or a duplicate; the code makes a new domain in every case.
- The comment on result formats (`security/lua-ebpf-lsm/lua/lsm_defs.h:85-92`) does not say what `true` followed by another
  value means for a hook that answers with an integer: the code leaves the default. `LuaDispatch.Meaning` gives the
  meaning of every list of results.
- A rename or link that needs nothing more than what is granted, and that gains nothing, can be refused all the same,
  because the hierarchies are compared before the rule of the last directory is applied (`LandlockHooks.SafeButRefused`).
  `LandlockHooks.CheckReferPath` says exactly which moves pass; when the mount root is the real root, none is refused
  in this way (`LandlockHooks.PassesAtRealRoot`).
- `RB_REMOVE_COLOR` is modelled as it is compiled by default, with `RB_STRICT_HST` 0.


## Model

| member | source | states |
|---|---|---|
| `RankTree.PlugWAVL` | security/lua-ebpf-lsm/lua/tree.h:498-523 | a whole tree obeys the rank rules exactly when the subtree does and the way up to the root fits its rank |
| `RankTree.InsertRotateInorder` | security/lua-ebpf-lsm/lua/tree.h:565-626 | the single and the double rotation of RB_INSERT_COLOR keep every node in order |
| `RankTree.RotationChild` | security/lua-ebpf-lsm/lua/tree.h:565-600 | when RB_INSERT_COLOR comes to a rotation, `child` has been set, and is not null where it is used |
| `RankTree.GrowUp` | security/lua-ebpf-lsm/lua/tree.h:547-564 | promoting a parent with two short edges hands the same obligation on to its parent |
| `RankTree.InsertRotateRank` | security/lua-ebpf-lsm/lua/tree.h:565-626 | after a rotation the subtree obeys the rank rules and has the rank it had before the insertion |
| `RankTree.InsertColorInorder` | security/lua-ebpf-lsm/lua/tree.h:528-629 | RB_INSERT_COLOR keeps every node, in order |
| `RankTree.InsertColorWAVL` | security/lua-ebpf-lsm/lua/tree.h:528-629 | RB_INSERT_COLOR restores every rank rule |
| `RankTree.SiblingExists` | security/lua-ebpf-lsm/lua/tree.h:676-710 | the two pointers that RB_REMOVE_COLOR does not check for null are never null |
| `RankTree.RemoveRotateInorder` | security/lua-ebpf-lsm/lua/tree.h:685-756 | the rotations of RB_REMOVE_COLOR keep every node in order |
| `RankTree.RemoveRotateRank` | security/lua-ebpf-lsm/lua/tree.h:685-756 | after a rotation the subtree obeys the rank rules and has the rank it had before the removal |
| `RankTree.RemoveClimbInorder` | security/lua-ebpf-lsm/lua/tree.h:659-758 | the climb of RB_REMOVE_COLOR keeps every node, in order |
| `RankTree.RemoveClimbWAVL` | security/lua-ebpf-lsm/lua/tree.h:659-758 | the climb of RB_REMOVE_COLOR restores every rank rule |
| `RankTree.RemoveColorInorder` | security/lua-ebpf-lsm/lua/tree.h:642-758 | RB_REMOVE_COLOR, with the demotion of a new leaf, keeps every node, in order |
| `RankTree.RemoveColorWAVL` | security/lua-ebpf-lsm/lua/tree.h:642-758 | RB_REMOVE_COLOR restores every rank rule, whatever shrank below the parent |
| `RankTree.Leftmost` | security/lua-ebpf-lsm/lua/tree.h:781-783 | the walk to the successor finds a node without a left child, in the same tree |
| `RankTree.SpliceOrder` | security/lua-ebpf-lsm/lua/tree.h:775-797 | taking a node out, or putting its successor in its place, leaves the other nodes in order |
| `RankTree.OnlyChildIsLeaf` | security/lua-ebpf-lsm/lua/tree.h:777-779 | a node with a null child has at most a leaf, without long edges, on the other side |
| `RankTree.SpliceFits` | security/lua-ebpf-lsm/lua/tree.h:775-797 | what is left at the place that shrank is one rank short of what fits there, which is what RB_REMOVE_COLOR repairs |
| `RankTree.RemoveInorder` | security/lua-ebpf-lsm/lua/tree.h:768-819 | RB_REMOVE leaves exactly the other nodes, in the same order |
| `RankTree.RemoveWAVL` | security/lua-ebpf-lsm/lua/tree.h:768-819 | RB_REMOVE of any node leaves a tree that obeys every rank rule |
| `RankTreeHeap.HangsPlug` | security/lua-ebpf-lsm/lua/tree.h:384-413 | the pointers represent a subtree in a context exactly when they represent the whole tree |
| `RankTreeHeap.Rotate` | security/lua-ebpf-lsm/lua/tree.h:403-413 | RB_ROTATE in place: which three nodes change, and how |
| `RankTreeHeap.Head.SwapChild` | security/lua-ebpf-lsm/lua/tree.h:384-401 | RB_SWAP_CHILD in place: the head or one child pointer changes |
| `RankTreeHeap.LiftHangs` | security/lua-ebpf-lsm/lua/tree.h:384-413 | a rotation and the relinking above it turn the heap of a tree into the heap of the rotated tree |
| `RankTreeHeap.RaiseInner` | security/lua-ebpf-lsm/lua/tree.h:566-598 | the first half of the double rotation of RB_INSERT_COLOR, in place, with its changes of bits |
| `RankTreeHeap.InsertRotate` | security/lua-ebpf-lsm/lua/tree.h:565-626 | the rotations that end RB_INSERT_COLOR turn the heap into that of the rotated tree |
| `RankTreeHeap.InsertColor` | security/lua-ebpf-lsm/lua/tree.h:528-629 | RB_INSERT_COLOR on linked nodes computes the tree that the rank rules and the order are proved for; it turns at most once per level |
| `RankTreeHeap.RemoveRaise` | security/lua-ebpf-lsm/lua/tree.h:706-714 | the first half of the double rotation of RB_REMOVE_COLOR, in place, with its changes of bits |
| `RankTreeHeap.DemoteBits` | security/lua-ebpf-lsm/lua/tree.h:715-729 | the changes of bits before the single rotation of RB_REMOVE_COLOR |
| `RankTreeHeap.RemoveRotate` | security/lua-ebpf-lsm/lua/tree.h:685-756 | the rotations that end RB_REMOVE_COLOR turn the heap into that of the rotated tree |
| `RankTreeHeap.RemoveAtLong` | security/lua-ebpf-lsm/lua/tree.h:675-757 | one turn at a long edge: shortens both edges of the sibling and goes on, or rotates and stops |
| `RankTreeHeap.RemoveClimb` | security/lua-ebpf-lsm/lua/tree.h:659-758 | the climb of RB_REMOVE_COLOR on linked nodes computes the repaired tree, and turns at most once per level |
| `RankTreeHeap.RemoveColor` | security/lua-ebpf-lsm/lua/tree.h:642-758 | RB_REMOVE_COLOR on linked nodes computes the repaired tree, and turns at most once per level |
| `RankTreeOps.RankSize` | security/lua-ebpf-lsm/lua/tree.h:56-76 | 2^rank <= (n+1)^2 for every weak-AVL tree with n nodes |
| `RankTreeOps.HeightBound` | security/lua-ebpf-lsm/lua/tree.h:56-76 | 2^height <= (n+1)^2 for every weak-AVL tree with n nodes |
| `RankTreeOps.DepthHeight` | security/lua-ebpf-lsm/lua/tree.h:56-76 | a way up to the root is no longer than the height of the tree allows |
| `RankTreeOps.LevelsBound` | security/lua-ebpf-lsm/lua/tree.h:56-76 | what happens once per level happens at most 2*lg(n+1) times |
| `RankTreeOps.SpliceDepth` | security/lua-ebpf-lsm/lua/tree.h:768-819 | the climb after a removal starts no deeper than the old tree was high |
| `RankTreeOps.Find` | security/lua-ebpf-lsm/lua/tree.h:866-883 | RB_FIND returns the element with the key exactly if there is one, after at most 2*lg(n+1) comparisons, the last one included |
| `RankTreeOps.NFind` | security/lua-ebpf-lsm/lua/tree.h:885-905 | RB_NFIND returns the first element that is not smaller, else null, after at most 2*lg(n+1) comparisons |
| `RankTreeOps.MinMax` | security/lua-ebpf-lsm/lua/tree.h:989-1002 | RB_MINMAX returns the first or the last element, and null only from an empty tree |
| `RankTreeOps.DescendTo` | security/lua-ebpf-lsm/lua/tree.h:912-915 | the descent of RB_NEXT or RB_PREV ends at the first or last node below |
| `RankTreeOps.ClimbFrom` | security/lua-ebpf-lsm/lua/tree.h:916-921 | the climb of RB_NEXT or RB_PREV ends at the nearest node beyond the subtree, or at null |
| `RankTreeOps.Neighbour` | security/lua-ebpf-lsm/lua/tree.h:907-923 | RB_NEXT and RB_PREV return the element after or before, and null only at the end |
| `RankTreeSplice.Bypass` | security/lua-ebpf-lsm/lua/tree.h:777-798 | the stores that replace a node by its only child |
| `RankTreeSplice.BypassHangs` | security/lua-ebpf-lsm/lua/tree.h:777-798 | after them the heap represents the tree without the node |
| `RankTreeSplice.Splice` | security/lua-ebpf-lsm/lua/tree.h:780-798 | the stores that put the successor in the place of a node with two children |
| `RankTreeSplice.SpliceCells` | security/lua-ebpf-lsm/lua/tree.h:780-798 | which nodes these stores change, and to what |
| `RankTreeSplice.SpliceHangs` | security/lua-ebpf-lsm/lua/tree.h:780-798 | after them the heap represents the tree in which the successor has taken over children and bits |
| `RankTreeUpdate.InsertFinish` | security/lua-ebpf-lsm/lua/tree.h:821-842 | RB_INSERT_FINISH on linked nodes: the heap of the tree with the new leaf, repaired |
| `RankTreeUpdate.InsertedFacts` | security/lua-ebpf-lsm/lua/tree.h:821-842 | that tree obeys the rank rules, and has the new node between what was before and after the slot |
| `RankTreeUpdate.Descend` | security/lua-ebpf-lsm/lua/tree.h:844-864 | the walk of RB_INSERT ends at an equal element, or at the one empty slot where the key belongs |
| `RankTreeUpdate.Insert` | security/lua-ebpf-lsm/lua/tree.h:844-864 | RB_INSERT returns the equal element and changes nothing, or leaves a well-formed tree with exactly the new node added; the climb takes at most 2*lg(n+1) turns |
| `RankTreeUpdate.InsertNeighbour` | security/lua-ebpf-lsm/lua/tree.h:933-987 | RB_INSERT_NEXT and RB_INSERT_PREV put the new node right beside the element, and keep the tree well formed |
| `RankTreeUpdate.TakeOut` | security/lua-ebpf-lsm/lua/tree.h:770-798 | the first half of RB_REMOVE on linked nodes leaves the tree with one place that has shrunk |
| `RankTreeUpdate.RemovedOrder` | security/lua-ebpf-lsm/lua/tree.h:768-819 | RB_REMOVE takes exactly one element out of the order |
| `RankTreeUpdate.RemovedValid` | security/lua-ebpf-lsm/lua/tree.h:768-819 | what RB_REMOVE leaves is ordered, obeys the rank rules and has exactly the other nodes |
| `RankTreeUpdate.Remove` | security/lua-ebpf-lsm/lua/tree.h:768-819 | RB_REMOVE on linked nodes leaves a well-formed tree without exactly the given node; the climb takes at most 2*lg(n+1) turns |
| `RankTreeUpdate.RemoveEach` | security/lua-ebpf-lsm/lua/tree.h:1046-1049 | RB_FOREACH_SAFE with a removing body meets every element exactly once, in order, and empties the tree |
| `SplayShape.RotateRight` | security/lua-ebpf-lsm/lua/tree.h:102-106 | SPLAY_ROTATE_RIGHT turns the current tree and leaves the two side trees alone |
| `SplayShape.RotateLeft` | security/lua-ebpf-lsm/lua/tree.h:108-112 | SPLAY_ROTATE_LEFT turns the current tree and leaves the two side trees alone |
| `SplayShape.RotateInorder` | security/lua-ebpf-lsm/lua/tree.h:102-112 | a rotation keeps every node in order |
| `SplayShape.LinkLeft` | security/lua-ebpf-lsm/lua/tree.h:114-118 | SPLAY_LINKLEFT moves the root and its right subtree to the right side tree |
| `SplayShape.LinkRight` | security/lua-ebpf-lsm/lua/tree.h:120-124 | SPLAY_LINKRIGHT moves the root and its left subtree to the left side tree |
| `SplayShape.LinkInorder` | security/lua-ebpf-lsm/lua/tree.h:114-124 | linking keeps every node in order |
| `SplayShape.Assemble` | security/lua-ebpf-lsm/lua/tree.h:126-131 | SPLAY_ASSEMBLE makes one tree of the three parts |
| `SplayShape.AssembledInorder` | security/lua-ebpf-lsm/lua/tree.h:126-131 | that tree has the nodes of the three parts, in order |
| `SplayShape.MidEnd` | security/lua-ebpf-lsm/lua/tree.h:232-255 | when the loop stops, everything left of the root is smaller than the key and everything right of it is larger |
| `SplayTree.Head.TurnSmaller` | security/lua-ebpf-lsm/lua/tree.h:233-242 | one turn of SPLAY to the left keeps the three parts and the order, and shrinks the current tree or stops |
| `SplayTree.Head.TurnLarger` | security/lua-ebpf-lsm/lua/tree.h:243-253 | one turn of SPLAY to the right keeps the three parts and the order, and shrinks the current tree or stops |
| `SplayTree.Head.AssembleParts` | security/lua-ebpf-lsm/lua/tree.h:126-131 | the end of SPLAY leaves a valid tree, with the key or its neighbour at the root |
| `SplayTree.Head.Splay` | security/lua-ebpf-lsm/lua/tree.h:223-256 | SPLAY ends, keeps the order, and brings the key, else its predecessor or successor, to the root |
| `SplayTree.Head.TurnMin` | security/lua-ebpf-lsm/lua/tree.h:269-278 | one turn of SPLAY_MINMAX to the left keeps the three parts and the order, and shrinks the current tree or stops |
| `SplayTree.Head.TurnMax` | security/lua-ebpf-lsm/lua/tree.h:279-289 | one turn of SPLAY_MINMAX to the right keeps the three parts and the order, and shrinks the current tree or stops |
| `SplayTree.Head.SplayMinMax` | security/lua-ebpf-lsm/lua/tree.h:261-292 | SPLAY_MINMAX ends, keeps the order, and brings the minimum or the maximum to the root |
| `SplayTree.Head.MinMax` | security/lua-ebpf-lsm/lua/tree.h:167-172 | SPLAY_MIN_MAX returns the first or the last element |
| `SplayTree.Head.Find` | security/lua-ebpf-lsm/lua/tree.h:143-151 | SPLAY_FIND returns the element with the key if there is one, else null, and keeps the elements |
| `SplayTree.Head.Insert` | security/lua-ebpf-lsm/lua/tree.h:178-200 | SPLAY_INSERT returns the equal element and keeps the elements, or adds exactly the new one |
| `SplayTree.Head.Remove` | security/lua-ebpf-lsm/lua/tree.h:202-221 | SPLAY_REMOVE removes exactly the element with the key, if there is one, and says whether there was |
| `SplayTree.JoinShape` | security/lua-ebpf-lsm/lua/tree.h:213-216 | after a removal the left subtree, splayed, takes the right one |
| `LandlockPolicy.AllowedRemaining` | admin-guide/LSM/landlock/src/fs.c:231-276 | a request is allowed on a path exactly when no layer still forbids a requested right at its end |
| `LandlockPolicy.RemainingStep` | admin-guide/LSM/landlock/src/fs.c:231-276 | one more dentry takes away exactly the layers that its rule grants |
| `LandlockPolicy.AllowedMono` | admin-guide/LSM/landlock/src/fs.c:556-632 | walking further up a path only ever allows more |
| `LandlockPolicy.AllRights` | admin-guide/LSM/landlock/src/fs.c:231-276 | the 15 rights have 15 different bits |
| `LandlockPolicy.GivenExactly` | admin-guide/LSM/landlock/src/fs.c:231-276 | a layer grants a right on a path exactly if a rule on it has the right in its entry for the layer |
| `LandlockPolicy.RefusedExactly` | admin-guide/LSM/landlock/src/fs.c:231-276 | a request is refused exactly if a layer restricts a right of it that no rule on the path has for that layer; what no layer handles is allowed, but for REFER |
| `LandlockAccess.UnmaskLayers` | admin-guide/LSM/landlock/src/fs.c:231-276 | unmask_layers clears exactly what the rule grants, and says whether nothing requested is forbidden any more, in spite of its early return |
| `LandlockAccess.InitLayerMasks` | admin-guide/LSM/landlock/src/fs.c:314-348 | init_layer_masks fills in exactly the layers that restrict each requested right, REFER by all, and returns the handled rights |
| `LandlockAccess.GetHandledAccesses` | admin-guide/LSM/landlock/src/fs.c:290-299 | get_handled_accesses returns the rights that some layer restricts |
| `LandlockAccess.NoMoreAccess` | admin-guide/LSM/landlock/src/fs.c:356-401 | no_more_access says whether, right by right, no layer that forbids below the source stops forbidding below the destination, in both directions for an exchange, on file rights only for files |
| `LandlockAccess.ScopeToRequest` | admin-guide/LSM/landlock/src/fs.c:408-421 | scope_to_request forgets the other rights and says whether nothing requested is forbidden |
| `LandlockAccess.IsEacces` | admin-guide/LSM/landlock/src/fs.c:427-444 | is_eacces says whether a requested right other than REFER is forbidden |
| `LandlockAccess.ShowsStep` | admin-guide/LSM/landlock/src/fs.c:596-600 | clearing the rule of one more dentry keeps the matrix exact |
| `LandlockAccess.AllowedShown` | admin-guide/LSM/landlock/src/fs.c:602-604 | an exact matrix decides the request |
| `LandlockAccess.NotYetAllowed` | admin-guide/LSM/landlock/src/fs.c:527-531 | before the walk no handled right is granted |
| `LandlockAccess.RestrictsNoGain` | admin-guide/LSM/landlock/src/fs.c:356-401 | the comparison of matrices is enough for the moved entry to gain nothing |
| `LandlockAccess.RestrictsExactly` | admin-guide/LSM/landlock/src/fs.c:356-401 | the comparison of matrices succeeds exactly if the moved entry gains nothing |
| `LandlockAccess.NoGainExtend` | admin-guide/LSM/landlock/src/fs.c:587-594 | a comparison that has succeeded stays good for the rest of the way up |
| `LandlockAccess.FreeNoGain` | admin-guide/LSM/landlock/src/fs.c:885-886 | below a directory that is granted everything nothing can be gained |
| `LandlockWalk.ChildMasks` | admin-guide/LSM/landlock/src/fs.c:533-548 | the matrix of a moved child shows what is forbidden after its own rule |
| `LandlockWalk.Compare` | admin-guide/LSM/landlock/src/fs.c:572-594 | the comparison of a refer walk succeeds exactly if no child gains anything, and then scopes both matrices to the requests |
| `LandlockWalk.CompareTurn` | admin-guide/LSM/landlock/src/fs.c:572-594 | the comparison happens until it has succeeded once; as long as it has not, a child would gain a right |
| `LandlockWalk.VisitTurn` | admin-guide/LSM/landlock/src/fs.c:596-604 | one dentry of either kind of walk: it ends the walk exactly if it has a rule and everything in question is granted now, on both hierarchies |
| `LandlockWalk.Climb` | admin-guide/LSM/landlock/src/fs.c:556-635 | the walk to the real root, with every early exit, accepts exactly what the rules along it say |
| `LandlockWalk.IsAccessToPathsAllowed` | admin-guide/LSM/landlock/src/fs.c:485-636 | is_access_to_paths_allowed decides a simple request exactly as the declarative meaning of the domain; two hierarchies are accepted exactly if both grant everything, or both requests are granted and no child gains a right even without the rule of the last dentry |
| `LandlockWalk.AcceptedPermitted` | admin-guide/LSM/landlock/src/fs.c:556-635 | whatever is accepted has its requests granted on both hierarchies and lets no child gain a right |
| `LandlockHooks.CheckAccessPath` | admin-guide/LSM/landlock/src/fs.c:638-649 | check_access_path is 0 or EACCES exactly by the meaning of the domain |
| `LandlockHooks.OpenNeeds` | admin-guide/LSM/landlock/src/fs.c:1181-1198 | reading a directory needs READ_DIR only; a file needs a right for each of reading, writing and execution |
| `LandlockHooks.GrantedAccess` | admin-guide/LSM/landlock/src/fs.c:1214-1272 | one walk for several rights answers every part of them as a walk of its own would |
| `LandlockHooks.FileOpen` | admin-guide/LSM/landlock/src/fs.c:1214-1272 | hook_file_open allows the open exactly if the rights for its modes are granted, and later truncation exactly if TRUNCATE is |
| `LandlockHooks.CollectDomainAccesses` | admin-guide/LSM/landlock/src/fs.c:716-757 | collect_domain_accesses leaves the exact matrix of the way to the mount root, also when it stops early, and says exactly whether nothing is forbidden on it |
| `LandlockHooks.CheckReferPath` | admin-guide/LSM/landlock/src/fs.c:812-915 | current_check_refer_path permits a rename, exchange or link exactly if both ways up grant everything, or if each entry may be made and removed where the move does so, by its kind, REFER is granted on both sides, and nothing gains a right; a refused one is EACCES exactly when a right other than REFER is missing |
| `LandlockHooks.CheckReparent` | admin-guide/LSM/landlock/src/fs.c:863-915 | the part of it for two different parents: it passes exactly if `Passes` holds |
| `LandlockHooks.RequestsMean` | admin-guide/LSM/landlock/src/fs.c:662-692 | the rights that a move asks for are those that the kinds of its entries call for, no more and no less |
| `LandlockHooks.PassesMeans` | admin-guide/LSM/landlock/src/fs.c:812-915 | what passes, in terms of what may be made and removed where, and of what is gained |
| `LandlockHooks.PlainLink` | admin-guide/LSM/landlock/src/fs.c:662-692 | a plain link of a regular file asks for REFER on both sides, and for MAKE_REG in the new directory |
| `LandlockHooks.PassesAccepted` | admin-guide/LSM/landlock/src/fs.c:863-915 | the walk of a move passes the root of the mount a second time, which makes no difference |
| `LandlockHooks.PassesPermitted` | admin-guide/LSM/landlock/src/fs.c:863-915 | whatever passes has its requests granted on both whole ways up and lets no child gain a right |
| `LandlockHooks.PassesAtRealRoot` | admin-guide/LSM/landlock/src/fs.c:863-915 | when the mount root is the real root, exactly the moves that are granted and safe pass |
| `LandlockHooks.SafeButRefused` | admin-guide/LSM/landlock/src/fs.c:572-594 | a move that is granted and safe on the whole ways up, and is refused, since the hierarchies are compared before the rule of the last directory is applied |
| `LandlockHooks.LayerGainsNothing` | admin-guide/LSM/landlock/src/fs.c:356-401 | after a permitted move no layer grants a right on anything inside the moved tree that it did not grant before |
| `LandlockHooks.MoveGainsNothing` | admin-guide/LSM/landlock/src/fs.c:356-401 | after a permitted move no request inside the moved tree is allowed that was not allowed before |
| `LandlockMerge.InsertAddLayer` | admin-guide/LSM/landlock/src/ruleset.c:286-306 | merging the rules of a ruleset one by one, in any order, adds up to one new layer |
| `LandlockMerge.MergedRules` | admin-guide/LSM/landlock/src/ruleset.c:145-217 | each merged rule is the parent's layers plus at most one entry, with increasing levels |
| `LandlockMerge.MergedGrants` | admin-guide/LSM/landlock/src/ruleset.c:261-357 | the lower layers of a merged domain grant what the parent's grant, and the top one what the ruleset grants |
| `LandlockMerge.MergeIsConjunction` | admin-guide/LSM/landlock/src/ruleset.c:402-449 | a merged domain allows a request exactly when the parent and the ruleset alone both do |
| `LandlockMerge.AbsoluteGrants` | admin-guide/LSM/landlock/src/fs.c:180-183 | two rulesets that agree on the rights that they handle and on REFER grant the same where a layer of a domain restricts |
| `LandlockMerge.BuildAgrees` | admin-guide/LSM/landlock/src/fs.c:166-196 | a ruleset that is built with these rights, and one that is built without, agree after any sequence of calls |
| `LandlockMerge.AbsoluteChangesNothing` | admin-guide/LSM/landlock/src/fs.c:180-183 | the rights that every call of landlock_append_fs_rule adds change no decision of a domain, whatever the sequence of calls was |
| `LandlockMerge.AbsoluteEverywhere` | admin-guide/LSM/landlock/src/fs.c:166-196 | nor do they in a domain that any number of such rulesets have been merged into |
| `LandlockMerge.BuiltGrants` | admin-guide/LSM/landlock/src/fs.c:166-196 | a ruleset grants a right on an object exactly if a call of landlock_append_fs_rule has given it |
| `LandlockMerge.EnforcedMeans` | admin-guide/LSM/landlock/src/ruleset.c:402-449 | the decisions of a task's domain from the system calls alone: a request is allowed exactly if in every enforced ruleset each right that it restricts was given to an object on the path |
| `LandlockCounts.CountsUnique` | admin-guide/LSM/landlock/src/object.c:42-67 | the references determine every object's counter |
| `LandlockCounts.NamedMore` | admin-guide/LSM/landlock/src/ruleset.c:71-96 | a new rule takes one reference to its object |
| `LandlockCounts.NamedLess` | admin-guide/LSM/landlock/src/ruleset.c:105-112 | a freed rule gives one reference back |
| `LandlockCounts.HeldMore` | admin-guide/LSM/landlock/src/fs.c:88-142 | a caller's reference to an object is counted |
| `LandlockCounts.HeldLess` | admin-guide/LSM/landlock/src/object.c:42-67 | giving it back frees the object exactly if nothing else refers to it |
| `LandlockCounts.NewHierarchy` | admin-guide/LSM/landlock/src/ruleset.c:426-432 | a new domain starts with a hierarchy of its own, with one reference |
| `LandlockCounts.LinkParent` | admin-guide/LSM/landlock/src/ruleset.c:350-351 | a child hierarchy takes one reference to its parent |
| `LandlockCounts.Disowned` | admin-guide/LSM/landlock/src/ruleset.c:359-368 | a freed domain's reference to its hierarchy is the only one that is still to be given up |
| `LandlockCounts.FreeStep` | admin-guide/LSM/landlock/src/ruleset.c:251-259 | freeing a hierarchy hands the reference to its parent on |
| `LandlockCounts.StopStep` | admin-guide/LSM/landlock/src/ruleset.c:251-259 | a hierarchy that something else refers to only loses one reference |
| `LandlockCounts.ReleasedExact` | admin-guide/LSM/landlock/src/ruleset.c:251-259 | put_hierarchy frees exactly the chain that nothing refers to any more, and keeps every other counter exact |
| `LandlockCounts.ReleaseLinked` | admin-guide/LSM/landlock/src/ruleset.c:251-259 | giving up a hierarchy that was just created and linked undoes both |
| `LandlockRuleset.Landlock.CreateUserRuleset` | admin-guide/LSM/landlock/src/ruleset.c:48-59 | landlock_create_ruleset makes an empty ruleset that handles the given rights; ENOMSG exactly without any, ENOMEM exactly without memory |
| `LandlockRuleset.Landlock.InsertRule` | admin-guide/LSM/landlock/src/ruleset.c:145-217 | insert_rule fails with EINVAL exactly on a misfit, E2BIG exactly at a limit, ENOMEM exactly without memory for a new rule, otherwise inserts or combines the rule, and keeps every counter exact; a failure changes nothing |
| `LandlockRuleset.Landlock.PutHierarchy` | admin-guide/LSM/landlock/src/ruleset.c:251-259 | put_hierarchy gives up exactly one reference and frees exactly what nothing refers to any more |
| `LandlockRuleset.Landlock.FreeRules` | admin-guide/LSM/landlock/src/ruleset.c:359-368 | free_ruleset gives back the reference of every rule |
| `LandlockRuleset.Landlock.FreeRuleset` | admin-guide/LSM/landlock/src/ruleset.c:359-368 | free_ruleset removes one ruleset and releases its hierarchy, with all counters exact |
| `LandlockRuleset.Landlock.PutRuleset` | admin-guide/LSM/landlock/src/ruleset.c:370-375 | the last reference to a ruleset frees it, any other only is given up |
| `LandlockRuleset.Landlock.AppendFsRule` | admin-guide/LSM/landlock/src/fs.c:166-196 | landlock_append_fs_rule adds the rule with its absolute rights; EINVAL exactly for directory rights on a file, ENOMEM and E2BIG exactly when memory or room is missing; a failure changes nothing, and its own reference to the object is given back |
| `LandlockRuleset.Landlock.CopyRules` | admin-guide/LSM/landlock/src/ruleset.c:328-336 | inherit_ruleset copies every rule, in whichever order it meets them, and fails exactly when memory runs out |
| `LandlockRuleset.Landlock.InheritRuleset` | admin-guide/LSM/landlock/src/ruleset.c:314-357 | inherit_ruleset copies rules and handled rights and links the hierarchies |
| `LandlockRuleset.Landlock.MergeRules` | admin-guide/LSM/landlock/src/ruleset.c:286-306 | merge_ruleset adds one layer, in whichever order it meets the rules; it fails only for too many rules or without memory |
| `LandlockRuleset.Landlock.MergeRuleset` | admin-guide/LSM/landlock/src/ruleset.c:402-449 | landlock_merge_ruleset adds one domain that means the conjunction of its parts and keeps all counters exact, exactly if there are fewer than 16 layers, not too many rules and enough memory; E2BIG only for too many layers or rules, ENOMEM only without memory; a failure leaves memory as it was |
| `LandlockRuleset.MergedNarrower` | admin-guide/LSM/landlock/src/ruleset.c:402-449 | whatever a merged domain allows its parent allows |
| `LandlockRuleset.LineageMerged` | admin-guide/LSM/landlock/src/ruleset.c:402-449 | a merge extends the history of its parent by one, and keeps all other histories |
| `LandlockRuleset.LineageLess` | admin-guide/LSM/landlock/src/ruleset.c:251-259 | freeing domains and hierarchies keeps the histories of the rest |
| `LandlockRuleset.NewDomainTyped` | admin-guide/LSM/landlock/src/ruleset.c:402-449 | a merged domain is well formed, and narrower than its parent |
| `LandlockRuleset.DomainDecides` | admin-guide/LSM/landlock/src/ruleset.c:402-449 | a domain in memory is well formed in the sense of the decisions, which are thus about it |
| `LandlockPtrace.PrefixStep` | admin-guide/LSM/landlock/src/ptrace.c:42-46 | one step of the walk up the hierarchy decides one step of the prefix relation of histories |
| `LandlockPtrace.DomainScopeLe` | admin-guide/LSM/landlock/src/ptrace.c:32-48 | domain_scope_le holds exactly if the parent's history of merges is a prefix of the child's |
| `LandlockPtrace.TaskPtrace` | admin-guide/LSM/landlock/src/ptrace.c:64-73 | tracing is permitted exactly if the tracer's history is a prefix of the tracee's, and then the tracee is allowed nothing that the tracer is denied |
| `LandlockPtrace.ScopeNarrows` | admin-guide/LSM/landlock/src/ptrace.c:32-48 | every request that a domain allows the domains that it was derived from allow as well |
| `LandlockPtrace.MergeScope` | admin-guide/LSM/landlock/src/ptrace.c:32-48 | a new domain is below its parent and what that is below, and nothing that existed is below it |
| `InodeSafety.InitInv` | admin-guide/LSM/landlock/src/fs.c:88-142 | the invariant holds before anything is tied |
| `InodeGet.StartGetKeeps` | admin-guide/LSM/landlock/src/fs.c:88-93 | calling get_inode_object keeps the invariant |
| `InodeGet.LoadKeeps` | admin-guide/LSM/landlock/src/fs.c:94-96 | reading the inode's pointer keeps it |
| `InodeGet.TryGetKeeps` | admin-guide/LSM/landlock/src/fs.c:97-100 | taking a reference to an object that may be dying keeps it |
| `InodeGet.SpinKeeps` | admin-guide/LSM/landlock/src/fs.c:101-107 | waiting for a release to finish keeps it |
| `InodeGet.CreateKeeps` | admin-guide/LSM/landlock/src/fs.c:111-117 | creating an object, or running out of memory, keeps it |
| `InodeGet.WantInodeKeeps` | admin-guide/LSM/landlock/src/fs.c:119-138 | losing the race, or ihold() under the inode's lock, keeps it |
| `InodeGet.AssignKeeps` | admin-guide/LSM/landlock/src/fs.c:138-141 | publishing the object keeps it |
| `InodePut.StartPutKeeps` | admin-guide/LSM/landlock/src/object.c:42-50 | calling landlock_put_object keeps it |
| `InodePut.PutKeeps` | admin-guide/LSM/landlock/src/object.c:52-58 | giving up a reference that is not the last one keeps it |
| `InodePut.WantObjectKeeps` | admin-guide/LSM/landlock/src/object.c:58-64 | giving up the last reference under the object's lock keeps it |
| `InodePut.ReleaseKeeps` | admin-guide/LSM/landlock/src/fs.c:43-58 | release_inode taking over the tie, or finding none, keeps it |
| `InodePut.CountKeeps` | admin-guide/LSM/landlock/src/fs.c:59-65 | counting the release for the superblock keeps it |
| `InodePut.ResetKeeps` | admin-guide/LSM/landlock/src/fs.c:66-72 | resetting the inode's pointer keeps it |
| `InodePut.IputKeeps` | admin-guide/LSM/landlock/src/fs.c:77-77 | the iput() of a release keeps it |
| `InodePut.ReturnKeeps` | admin-guide/LSM/landlock/src/fs.c:78-79 | taking the release off the superblock's count keeps it |
| `InodeUnmount.StartUnmountKeeps` | admin-guide/LSM/landlock/src/fs.c:935-943 | calling hook_sb_delete keeps it |
| `InodeUnmount.WalkKeeps` | admin-guide/LSM/landlock/src/fs.c:942-1033 | going to the next inode, or to the end of the list, keeps it |
| `InodeUnmount.PeekKeeps` | admin-guide/LSM/landlock/src/fs.c:946-948 | skipping an unused inode keeps it |
| `InodeUnmount.EnterKeeps` | admin-guide/LSM/landlock/src/fs.c:950-976 | skipping a dying or untied inode, or taking a reference, keeps it |
| `InodeUnmount.TestKeeps` | admin-guide/LSM/landlock/src/fs.c:978-1009 | taking over the tie under the object's lock keeps it |
| `InodeUnmount.ResetUKeeps` | admin-guide/LSM/landlock/src/fs.c:989-996 | resetting the inode's pointer keeps it |
| `InodeUnmount.IputUKeeps` | admin-guide/LSM/landlock/src/fs.c:997-1005 | the iput() of an unmount keeps it |
| `InodeUnmount.NextKeeps` | admin-guide/LSM/landlock/src/fs.c:1011-1027 | dropping the reference to the previous inode keeps it |
| `InodeUnmount.WaitKeeps` | admin-guide/LSM/landlock/src/fs.c:1034-1036 | waiting for the pending releases keeps it |
| `InodeSafety.StepKeeps` | admin-guide/LSM/landlock/src/fs.c:43-142 | every step of every thread keeps the invariant |
| `InodeSafety.Always` | admin-guide/LSM/landlock/src/fs.c:43-142 | the invariant holds in every state of every run, in every interleaving |
| `InodeSafety.OneIput` | admin-guide/LSM/landlock/src/fs.c:54-80 | an ihold() is returned by at most one iput(), and none without it; until then the inode stays, and the tie is in place or one thread is on its way to return it |
| `InodeSafety.ExactlyOneIput` | admin-guide/LSM/landlock/src/fs.c:43-80 | once an object is not used any more and no thread is at work on it, its ihold() has been returned, by exactly one iput(), and nothing of the tie is left |
| `InodeSafety.ReleaseGoesOn` | admin-guide/LSM/landlock/src/fs.c:43-80 | nothing can hold up a thread that is at work on a tie: each step can be taken at once and brings it closer to the iput() |
| `InodeSafety.IputReturnsIhold` | admin-guide/LSM/landlock/src/fs.c:68-78 | every iput() of a release or unmount returns an ihold() that is still out, and no other thread is about to |
| `InodeSafety.ResetsOwnPointer` | admin-guide/LSM/landlock/src/fs.c:64-72 | the inode's pointer is only reset while it points at the object that is being untied |
| `InodeSafety.FreedUntied` | admin-guide/LSM/landlock/src/fs.c:919-926 | an inode that is being freed has no object any more |
| `InodeSafety.UnmountWaits` | admin-guide/LSM/landlock/src/fs.c:1034-1036 | hook_sb_delete returns only when no release of the superblock is pending |
| `InodeSafety.UnmountReleases` | admin-guide/LSM/landlock/src/fs.c:935-1037 | if nobody tied anything since it was called, no inode of the superblock has an object when it returns |
| `InodeCalls.GetReturns` | admin-guide/LSM/landlock/src/fs.c:88-142 | get_inode_object returns either without memory, when nothing has changed, or with a reference of the caller's own to a published object of the inode |
| `InodeCalls.GetFinds` | admin-guide/LSM/landlock/src/fs.c:94-100 | a call that finds a live object tied to the inode returns that one |
| `InodeCalls.OthersKeep` | admin-guide/LSM/landlock/src/fs.c:43-142 | until then, and in every step of the other functions, nobody else's reference is taken or given |
| `InodeCalls.PutReturns` | admin-guide/LSM/landlock/src/object.c:42-67 | landlock_put_object returns without the reference that it was given, and no call leaves one behind |
| `InodeCalls.CanStep` | admin-guide/LSM/landlock/src/fs.c:43-142 | a thread inside a call can take its next step at once, unless it waits for a lock or for pending releases |
| `InodeCalls.NoDeadlock` | admin-guide/LSM/landlock/src/fs.c:43-142 | whoever waits waits for a thread that can go on |
| `InodeCalls.GetAlone` | admin-guide/LSM/landlock/src/fs.c:88-142 | a get_inode_object that nobody disturbs returns a reference to an object of the inode after at most six steps |
| `InodeCalls.UnmountAlone` | admin-guide/LSM/landlock/src/fs.c:935-1037 | over a whole run: if nobody is in get_inode_object on the superblock from the call of hook_sb_delete to its return, nothing of the superblock is tied when it returns |
| `LuaState.LoadKeepsExact` | security/lua-ebpf-lsm/lua/lsm.c:684-712 | loading a module into a VM counts it exactly |
| `LuaState.RemoveKeepsExact` | security/lua-ebpf-lsm/lua/lsm.c:1114-1138 | a counted removal from a VM keeps the account exact |
| `LuaState.ExitKeepsExact` | security/lua-ebpf-lsm/lua/lsm.c:721-743 | taking a module of an exiting task off its count keeps the account exact |
| `LuaState.SettleKeepsExact` | security/lua-ebpf-lsm/lua/lsm.c:1338-1346 | taking the counted removals off makes nloaded the number of VMs that hold the module |
| `LuaState.UnlistKeepsExact` | security/lua-ebpf-lsm/lua/lsm.c:1338-1342 | a module that no VM holds can be freed |
| `LuaState.QuietNow` | security/lua-ebpf-lsm/lua/lsm.c:1260-1260 | once all hooks of that time have ended, no hook can load the leaving module |
| `LuaState.RegisterKeeps` | security/lua-ebpf-lsm/lua/lsm.c:1088-1089 | a module put on the list leaves the other modules and the running hooks in order |
| `LuaState.LifeKeeps` | security/lua-ebpf-lsm/lua/lsm.c:1243-1251 | a module that stops being live leaves the running hooks in order |
| `LuaState.UnlistKeeps` | security/lua-ebpf-lsm/lua/lsm.c:1338-1342 | a zombie goes off the list, and no running hook had anything to do with it any more |
| `LuaHolders.HolderOwned` | security/lua-ebpf-lsm/lua/lsm.c:437-494 | a VM that holds a module is a CPU's, a task's or an exiting task's |
| `LuaHolders.StableHolds` | security/lua-ebpf-lsm/lua/lsm.c:1260-1260 | a module that no hook can load gets into no VM any more, and no task gets a VM that holds it |
| `LuaHolders.WhoHolds` | security/lua-ebpf-lsm/lua/lsm.c:1262-1336 | so who still holds it after all attempts is exiting, or was busy at times |
| `LuaBoard.CountHook` | security/lua-ebpf-lsm/lua/lsm.c:1083-1086 | a hook counted before its module is listed: the counters stay exactly ahead of the list |
| `LuaBoard.ListModule` | security/lua-ebpf-lsm/lua/lsm.c:1088-1089 | a module is listed once its hooks are counted: the counters agree with the list again, but for the static key |
| `LuaBoard.EndLife` | security/lua-ebpf-lsm/lua/lsm.c:1243-1245 | a module stops being live: the counters are ahead of the list by exactly what it served |
| `LuaBoard.Unlist` | security/lua-ebpf-lsm/lua/lsm.c:1338-1339 | taking a module that has left off the list changes no counter and lets no module serve again |
| `LuaBoard.RunEvolves` | security/lua-ebpf-lsm/lua/lsm.c:1075-1347 | over any run of such stores, no module whose registration had been completed begins to serve |
| `LuaBoard.NoneServes` | security/lua-ebpf-lsm/lua/lsm_defs.h:213-214 | a count is zero exactly if no live module serves the hook |
| `LuaBoard.Covered` | security/lua-ebpf-lsm/lua/lsm_defs.h:213-214 | whatever stores are under way, neither fast path misses a module whose registration has been completed |
| `LuaBoard.Known` | security/lua-ebpf-lsm/lua/lsm_defs.h:213-214 | a counter that is not zero means that a module serves the hook, is being registered for it, or has just left |
| `LuaBoard.Next` | security/lua-ebpf-lsm/lua/lsm_defs.h:223-224 | the walk over the list goes to the next module in the order of registration |
| `LuaExit.BeginExit` | security/lua-ebpf-lsm/lua/lsm.c:1395-1406 | in the beginning every module of an exiting VM is still to come on the list |
| `LuaExit.UnlistExits` | security/lua-ebpf-lsm/lua/lsm.c:1338-1340 | a module is taken off the list only after every walk has passed it |
| `LuaExit.TurnExit` | security/lua-ebpf-lsm/lua/lsm.c:731-741 | a turn of lua_modules_free takes a module off that has not been taken off before, and no later module of the same name |
| `LuaExit.EndOfExit` | security/lua-ebpf-lsm/lua/lsm.c:731-743 | at the end of the walk no module has been missed, although the list changed meanwhile |
| `LuaModules.LoadedBounds` | security/lua-ebpf-lsm/lua/lsm.c:1280-1338 | while a module leaves, its counter only goes down, and not below the removals counted so far |
| `LuaModules.Lsm.GetLua` | security/lua-ebpf-lsm/lua/lsm.c:322-344 | a VM from the pool, or a new one if there is memory, holds no module and belongs to no one else |
| `LuaModules.Lsm.StartInTask` | security/lua-ebpf-lsm/lua/lsm.c:437-494 | a hook in a task runs in that task's own VM, which it gets when it first needs one, unless there is no memory |
| `LuaModules.Lsm.Load` | security/lua-ebpf-lsm/lua/lsm.c:684-712 | loading adds the module to exactly the VM of the hook if it does not hold it and its chunk runs, and changes nothing otherwise |
| `LuaModules.Lsm.TaskExit` | security/lua-ebpf-lsm/lua/lsm.c:1395-1415 | an exiting task's clean VM goes to the pool or away at once; a dirty one has to give up its modules first |
| `LuaModules.Lsm.Put` | security/lua-ebpf-lsm/lua/lsm.c:346-371 | an empty VM goes to the head of the pool, or away if the pool is full |
| `LuaModules.Lsm.ExitTurn` | security/lua-ebpf-lsm/lua/lsm.c:721-743 | one turn of lua_modules_free; after the last one the VM is empty, and is put away |
| `LuaModules.Lsm.Taken` | security/lua-ebpf-lsm/lua/lsm.c:731-741 | exactly a module that the VM still holds loses one from its count |
| `LuaModules.Lsm.EndExit` | security/lua-ebpf-lsm/lua/lsm.c:721-743 | the walk of lua_modules_free ends |
| `LuaModules.Lsm.Synchronize` | security/lua-ebpf-lsm/lua/lsm.c:1260-1260 | synchronize_srcu waits for every hook and every exit that was running, while others go on |
| `LuaModules.Lsm.CountHooks` | security/lua-ebpf-lsm/lua/lsm.c:1083-1086 | the hooks of a new module are counted one by one, while others run |
| `LuaModules.Lsm.AddTail` | security/lua-ebpf-lsm/lua/lsm.c:1088-1089 | the new module goes to the end of the list, live |
| `LuaModules.Lsm.KeyInc` | security/lua-ebpf-lsm/lua/lsm.c:1090-1090 | the static key counts it last |
| `LuaModules.Lsm.Register` | security/lua-ebpf-lsm/lua/lsm.c:1075-1098 | a module is registered, live and last in the list, exactly if its name is not taken, not even by a zombie; others run between any two stores, and what they see of the counters stays in order |
| `LuaModules.Lsm.RemoveModule` | security/lua-ebpf-lsm/lua/lsm.c:1114-1138 | lvm_remove_module takes the module out of one VM, ENOENT exactly if it was not there |
| `LuaModules.Lsm.TaskRemoveModule` | security/lua-ebpf-lsm/lua/lsm.c:1140-1162 | task_remove_module tells a running task, one that is in a hook, and one without the module apart, and otherwise takes the module out of its VM |
| `LuaModules.Lsm.TasksRemoveModule` | security/lua-ebpf-lsm/lua/lsm.c:1164-1196 | tasks_lvm_remove_module returns exactly the removals it has made, while others run; afterwards only tasks that may run or be in a hook still hold the module, and none if it has found none busy |
| `LuaModules.Lsm.SoftirqsRemoveModule` | security/lua-ebpf-lsm/lua/lsm.c:1205-1224 | the removals from softirq VMs are counted exactly, and no softirq VM holds the module afterwards |
| `LuaModules.Lsm.IdleRemoveModule` | security/lua-ebpf-lsm/lua/lsm.c:1301-1315 | the removals from idle tasks are counted exactly; those that still hold the module are tasks that may run or be in a hook |
| `LuaModules.Lsm.SetGoing` | security/lua-ebpf-lsm/lua/lsm.c:1243-1244 | a live module is going from then on, and serves no hook |
| `LuaModules.Lsm.LeaveCounters` | security/lua-ebpf-lsm/lua/lsm.c:1245-1250 | the static key and the counters of its hooks follow, store by store, while others run |
| `LuaModules.Lsm.StartLeaving` | security/lua-ebpf-lsm/lua/lsm.c:1236-1260 | a module that begins to leave serves no hook, and after the grace period none can load it |
| `LuaModules.Lsm.RemoveOnce` | security/lua-ebpf-lsm/lua/lsm.c:1271-1299 | the first attempts count exactly, and leave no softirq VM that holds the module; `nbusy` is unset only if the module was not loaded |
| `LuaModules.Lsm.Round` | security/lua-ebpf-lsm/lua/lsm.c:1319-1329 | one retry never counts more removals than the module was loaded, which the source warns about |
| `LuaModules.Lsm.Retry` | security/lua-ebpf-lsm/lua/lsm.c:1317-1336 | the retries count exactly, and end when no listed task holds the module any more, or after five rounds |
| `LuaModules.Lsm.RemoveEverywhere` | security/lua-ebpf-lsm/lua/lsm.c:1271-1336 | all attempts together count exactly, and `nbusy` is never read unset; no softirq VM holds the module afterwards, no task that was never busy, and a listed task only after six rounds |
| `LuaModules.Lsm.ListDel` | security/lua-ebpf-lsm/lua/lsm.c:1338-1339 | the module is taken off the list only if no VM is counted for it |
| `LuaModules.Lsm.SetZombie` | security/lua-ebpf-lsm/lua/lsm.c:1343-1346 | otherwise it stays as a zombie, with an exact count |
| `LuaModules.Lsm.FinishLeaving` | security/lua-ebpf-lsm/lua/lsm.c:1338-1346 | the module is freed exactly if no VM is counted for it, and after the second grace period, when no table holds it, not even that of an exiting task |
| `LuaModules.Lsm.Unregister` | security/lua-ebpf-lsm/lua/lsm.c:1226-1353 | unregister fails with ENOENT exactly for an unknown name; it frees the module if no VM holds it; otherwise it leaves a zombie, and every VM that still holds it is that of an exiting task or of a task that may run or be in a hook, never a CPU's, and of a listed task only after six rounds; all that while other threads run between any two of its stores |
| `LuaModules.HookRuns` | security/lua-ebpf-lsm/lua/lsm.c:1075-1347 | what a hook sees while it runs is a part of what these stores show |
| `LuaDispatch.ResErrno` | security/lua-ebpf-lsm/lua/lsm_defs.h:77-83 | only a value from 1 to MAX_ERRNO counts as an errno, after the conversion to int |
| `LuaDispatch.CIntWraps` | security/lua-ebpf-lsm/lua/lsm_defs.h:79-79 | the conversion of an errno to a C int keeps what fits and wraps around |
| `LuaDispatch.ResInt` | security/lua-ebpf-lsm/lua/lsm_defs.h:94-112 | lua_lsm_pcall_res_int: nothing and nil keep the default, true gives 0, false -EPERM, false or nil with an errno -errno, true with more values keeps the default |
| `LuaDispatch.ResBool` | security/lua-ebpf-lsm/lua/lsm_defs.h:114-121 | lua_lsm_pcall_res_bool: true gives 1, false 0, anything else keeps the default |
| `LuaDispatch.ResBoolErr` | security/lua-ebpf-lsm/lua/lsm_defs.h:123-149 | lua_lsm_pcall_res_boolerr: true gives 1, false 0, false or nil with an errno -errno, anything else keeps the default |
| `LuaDispatch.MeaningDocumented` | security/lua-ebpf-lsm/lua/lsm_defs.h:85-149 | every list of results decides one value by the documented formats, or leaves the default, and not both |
| `LuaDispatch.AnswersInRange` | security/lua-ebpf-lsm/lua/lsm_defs.h:77-149 | no result decodes to anything but the default, a verdict or a negative errno |
| `LuaDispatch.MustServe` | security/lua-ebpf-lsm/lua/lsm_defs.h:223-228 | a module that was registered when the hook began, and still serves it when it ends, serves it all the time |
| `LuaDispatch.NeverAsked` | security/lua-ebpf-lsm/lua/lsm_defs.h:223-228 | a module that had left before the hook began is never asked |
| `LuaDispatch.FirstAnswerUnique` | security/lua-ebpf-lsm/lua/lsm_defs.h:223-248 | when no module comes or leaves meanwhile, at most one value is the first answer |
| `LuaDispatch.StandsStill` | security/lua-ebpf-lsm/lua/lsm_defs.h:223-248 | so it is when nobody registers or unregisters |
| `LuaDispatch.CallModule` | security/lua-ebpf-lsm/lua/lsm_defs.h:229-247 | one call decodes to the module's answer, or leaves the default |
| `LuaDispatch.FirstVerdict` | security/lua-ebpf-lsm/lua/lsm_defs.h:223-248 | if what comes before decides nothing, the results of a module that must be asked decide the answer |
| `LuaDispatch.Loop` | security/lua-ebpf-lsm/lua/lsm_defs.h:223-249 | the loop over a list that may change gives the first non-default answer in registration order, and calls each module at most once, in that order, and every module that was live all the time until there is an answer |
| `LuaDispatch.Scan` | security/lua-ebpf-lsm/lua/lsm_defs.h:204-256 | so does its fast path on the counter of the hook; without a VM it fails only if a module serves, is coming or has just left |
| `LuaDispatch.RunHook` | security/lua-ebpf-lsm/lua/lsm_defs.h:257-281 | both fast paths return what the full scan would, whatever stores are under way: the first results that decide something give the answer; a void hook calls every module that must be called; a failing prepare function is returned as it is; without a VM it is the default or -ENOMEM, which is certain if a module serves all the time |
| `KvOrder.CmpOrder` | security/lua-ebpf-lsm/lua/kvcache.c:52-59 | nodes compare equal exactly if key and module are equal, and the order is antisymmetric |
| `KvOrder.CmpTransitive` | security/lua-ebpf-lsm/lua/kvcache.c:52-59 | the order is transitive |
| `KvOrder.InsertSorted` | security/lua-ebpf-lsm/lua/kvcache.c:160-161 | a new node has exactly one place in the order |
| `KvCache.HoldsUnique` | security/lua-ebpf-lsm/lua/kvcache.c:130-144 | a key of a module has at most one node in a dictionary |
| `KvCache.LinkKeeps` | security/lua-ebpf-lsm/lua/kvcache.c:146-177 | linking a node keeps both indexes in agreement and changes one entry |
| `KvCache.UnlinkKeeps` | security/lua-ebpf-lsm/lua/kvcache.c:179-204 | unlinking a node removes exactly its entry |
| `KvCache.ListDelKeeps` | security/lua-ebpf-lsm/lua/kvcache.c:179-193 | taking a node off its module's list keeps the list's counter exact |
| `KvCache.RenewKeeps` | security/lua-ebpf-lsm/lua/kvcache.c:245-261 | a new value or counter of a node changes no other entry |
| `KvCache.DropNodes` | security/lua-ebpf-lsm/lua/kvcache.c:122-128 | dropping the last reference frees a node that is not stored |
| `KvStore.Store.DictInit` | security/lua-ebpf-lsm/lua/kvcache.c:475-481 | a new dictionary is empty |
| `KvStore.Store.Lookup` | security/lua-ebpf-lsm/lua/kvcache.c:130-144 | kvcache_lookup returns the node of the key and module with one more reference, or none exactly if there is no entry |
| `KvStore.Store.Link` | security/lua-ebpf-lsm/lua/kvcache.c:146-177 | a new node is linked, or refused with ERANGE exactly at capacity, when nothing changes |
| `KvStore.Store.Unlink` | security/lua-ebpf-lsm/lua/kvcache.c:195-204 | unlinking removes exactly one entry |
| `KvStore.Store.Fill` | security/lua-ebpf-lsm/lua/kvcache.c:206-261 | a value of a bad type is EINVAL and changes nothing |
| `KvStore.Store.Set` | security/lua-ebpf-lsm/lua/kvcache.c:263-314 | kvcache_set is a map update bounded by the capacity, with its result determined: nil deletes, an old entry can always be written, a new one fails with ENOMEM exactly without memory, with ERANGE exactly when full, a bad type changes nothing |
| `KvStore.Store.Get` | security/lua-ebpf-lsm/lua/kvcache.c:342-356 | kvcache_get returns the value of the entry, and changes nothing |
| `KvStore.Store.Incr` | security/lua-ebpf-lsm/lua/kvcache.c:358-405 | kvcache_incr adds to a number, makes a new entry, or fails with EINVAL and changes nothing |
| `KvStore.Store.UnlinkAll` | security/lua-ebpf-lsm/lua/kvcache.c:421-433 | the first loop of kvcache_module_nodes_gc takes exactly the module's entries out of all dictionaries |
| `KvStore.Store.CollectFirst` | security/lua-ebpf-lsm/lua/kvcache.c:436-441 | one turn of its second loop frees one node and keeps the list's counter exact |
| `KvStore.Store.ModuleGc` | security/lua-ebpf-lsm/lua/kvcache.c:416-446 | kvcache_module_nodes_gc removes exactly the module's entries from all dictionaries and returns how many there were |
| `KvStore.Store.UnlistAll` | security/lua-ebpf-lsm/lua/kvcache.c:456-465 | the first loop of kvcache_dict_free takes every node of the dictionary off its module's list |
| `KvStore.Store.FreeNode` | security/lua-ebpf-lsm/lua/kvcache.c:467-470 | the body of its second loop frees one node; what follows it in the tree is found before |
| `KvStore.Store.DictFree` | security/lua-ebpf-lsm/lua/kvcache.c:448-473 | kvcache_dict_free empties exactly that dictionary, frees exactly its nodes and takes them off every list |
| `KvStore.NoneStored` | security/lua-ebpf-lsm/lua/kvcache.c:416-446 | when no node of a module's list is stored, no dictionary has an entry of the module |
| `KvStore.OffGone` | security/lua-ebpf-lsm/lua/kvcache.c:448-473 | when the nodes taken off the lists are gone, the lists are complete again |
| `QueueShape.InsertAll` | security/lua-ebpf-lsm/lua/queue.h:840-886 | inserting anywhere keeps every list represented |
| `QueueShape.RemoveAll` | security/lua-ebpf-lsm/lua/queue.h:913-929 | removing keeps every list represented, and frees the element |
| `QueueShape.ReplaceAll` | security/lua-ebpf-lsm/lua/queue.h:931-947 | replacing keeps every list represented |
| `QueueShape.ConcatAll` | security/lua-ebpf-lsm/lua/queue.h:776-785 | concatenating keeps every list represented, and empties the second one |
| `QueueShape.SwapAll` | security/lua-ebpf-lsm/lua/queue.h:949-964 | swapping keeps every list represented |
| `Queues.TailQueues.InsertHead` | security/lua-ebpf-lsm/lua/queue.h:865-876 | TAILQ_INSERT_HEAD puts the element in front |
| `Queues.TailQueues.InsertTail` | security/lua-ebpf-lsm/lua/queue.h:878-886 | TAILQ_INSERT_TAIL puts the element at the end |
| `Queues.TailQueues.InsertAfter` | security/lua-ebpf-lsm/lua/queue.h:840-853 | TAILQ_INSERT_AFTER puts the element right after the given one |
| `Queues.TailQueues.InsertBefore` | security/lua-ebpf-lsm/lua/queue.h:855-863 | TAILQ_INSERT_BEFORE puts the element right before the given one, without the head |
| `Queues.TailQueues.Remove` | security/lua-ebpf-lsm/lua/queue.h:913-929 | TAILQ_REMOVE removes exactly the element |
| `Queues.TailQueues.Replace` | security/lua-ebpf-lsm/lua/queue.h:931-947 | TAILQ_REPLACE puts the new element in the place of the old one |
| `Queues.TailQueues.Concat` | security/lua-ebpf-lsm/lua/queue.h:776-785 | TAILQ_CONCAT appends the second list to the first and empties it |
| `Queues.TailQueues.Swap` | security/lua-ebpf-lsm/lua/queue.h:949-964 | TAILQ_SWAP exchanges the two lists |
| `Queues.TailQueues.Last` | security/lua-ebpf-lsm/lua/queue.h:888-890 | TAILQ_LAST returns the last element, or null from an empty list |
| `Queues.TailQueues.Prev` | security/lua-ebpf-lsm/lua/queue.h:903-904 | TAILQ_PREV returns the element before, or null for the first one |
| `Queues.TailQueues.Reverse` | security/lua-ebpf-lsm/lua/queue.h:814-817 | TAILQ_FOREACH_REVERSE meets every element once, from the last to the first |
| `Queues.PlainLists.InsertHead` | security/lua-ebpf-lsm/lua/queue.h:628-634 | LIST_INSERT_HEAD puts the element in front |
| `Queues.PlainLists.InsertAfter` | security/lua-ebpf-lsm/lua/queue.h:611-618 | LIST_INSERT_AFTER puts the element right after the given one |
| `Queues.PlainLists.InsertBefore` | security/lua-ebpf-lsm/lua/queue.h:620-626 | LIST_INSERT_BEFORE puts the element right before the given one |
| `Queues.PlainLists.Remove` | security/lua-ebpf-lsm/lua/queue.h:646-657 | LIST_REMOVE removes exactly the element |
| `Queues.PlainLists.Replace` | security/lua-ebpf-lsm/lua/queue.h:659-672 | LIST_REPLACE puts the new element in the place of the old one |
| `Queues.PlainLists.Concat` | security/lua-ebpf-lsm/lua/queue.h:563-578 | LIST_CONCAT appends the second list to the first and empties it |
| `Queues.PlainLists.Swap` | security/lua-ebpf-lsm/lua/queue.h:674-682 | LIST_SWAP exchanges the two lists |
| `Queues.PlainLists.Prev` | security/lua-ebpf-lsm/lua/queue.h:638-641 | LIST_PREV returns the element before, or null for the first one |
| `Pelt.LoadGrows` | scheduler/sched-pelt.c:63-72 | the loads of the loop never shrink |
| `Pelt.LoadBounded` | scheduler/sched-pelt.c:63-72 | every load m satisfies m * (2^32 - y_inv) <= 1024 * 2^32 |
| `Pelt.LoadBelowFixedPoints` | scheduler/sched-pelt.c:63-72 | no load exceeds a fixed point of a period |
| `Pelt.ConvergedMax` | scheduler/sched-pelt.c:59-80 | calc_converged_max ends, at the least fixed point of a period, which is 1023 * 2^32 / (2^32 - y_inv) + 1, and 47742 for a half-life of 32; `n` is when it was first reached |
| `Pelt.FixedExactly` | scheduler/sched-pelt.c:64-70 | a period changes nothing exactly if 1023 * 2^32 < m * (2^32 - y_inv) <= 1024 * 2^32 |
| `Pelt.NoOverflow` | scheduler/sched-pelt.c:63-66 | no product of the loop overflows a signed 64-bit integer unless y is within 2^-21 of 1 |

## Left out

Stated weaker than one might expect:

- LandlockWalk.IsAccessToPathsAllowed: the walk is a finite sequence of dentries that ends at the real root or at a disconnected root; crossing mount points is part of that sequence.
- InodeSafety.ReleaseGoesOn: that a thread at work on a tie is scheduled is not stated, and neither is the absence of starvation at a lock.
- InodeSafety.UnmountReleases: is about unmounting without new ties; with new ties only `InodeSafety.UnmountWaits` holds.
- KvStore.Store.Find: searches the dictionary's ordered sequence of nodes; that a search tree gives the same answer is the subject of `RankTreeOps.Find`.
- LuaModules.Lsm.Unregister: that its retries succeed in the end is not stated, since a task may stay busy; `lively`, any set of tasks, is which may ever be.
- LuaModules.Lsm.Load: running the chunk of a module and counting it are one step.
- Pelt.ConvergedMax: is about unbounded integers; `Pelt.NoOverflow` says when the products fit into 64 bits.

Trees and queues:

- Keys are integers, which stand for any total order that a comparison function may define.
- The tag bits in the low bits of a parent pointer are two booleans; how pointers and bits share a word is not modelled.
- Augmentation hooks do nothing here, so the values that RB_INSERT_COLOR and RB_REMOVE_COLOR return for them are left out.
- RB_REINSERT changes a key inside a tree; the keys of the model do not change.
- RB_NEXT and RB_PREV, and the two insertions beside an element, are each one method with a direction.
- SPLAY_NEXT and SPLAY_FOREACH; addresses 0 and 1 are taken for NULL and for the local node of SPLAY.
- The fields of an element that has been removed or replaced; debugging checks; the FAST variants and the singly linked families.

Landlock:

- Masks of 15 access rights and 16 layers are sets; no width matters but the limit on the number of rules.
- Directories of pseudo file systems are left out of renames and links.
- The red-black trees of rules are maps; the locks of rulesets and the deferred freeing of a ruleset.
- Branches that only a WARN_ON reaches are preconditions.
- System calls, credentials, ABI versions, mount hooks, and `setup.c`.
- In the inode protocol, a critical section whose accesses are all covered by its lock is one step; memory reclaimed by RCU is never reused; the list of a superblock's inodes is met in any order.

The Lua LSM:

- A Lua state is the set of the modules that it holds; the Lua C API, bytecode, garbage collection and metatables.
- A module's hook function is given by its outcome; compiling a module, before the critical section of registering.
- The per-CPU pools of Lua states are one pool; statistics and logging.
- `synchronize_srcu` lets running hooks and exits end in any order; every access to the list, a state or a counter is one step, in one order for all CPUs.
- In the end of unregistering, subtracting the count and the store that follows are one step.
- The dictionaries that belong to a module itself are freed as any other one is, which unregistering does not show here.
- Operations on the caches happen one at a time; a number is an integer; keys have no NUL; the difference of two module addresses fits into an int.

Elsewhere: securityfs, the floating-point tables of `sched-pelt.c`, the drivers under `uestc-lilin`, `mm/buddy`, the kfifo notes, and the scripts.
