# A model of yastg in Dafny

yastg is a text-based space trading game: a C server that keeps a universe of star systems, lets
civilisations grow over them, runs ports whose stocks change through the day, and serves players over
network connections from a pool of worker threads. This project models the parts of it whose
correctness is hardest to see in the code, and proves what they promise.

| files | what they model |
|---|---|
| RbShape, RbBalance, RbLinks, RbTree | the red-black tree of rbtree.c: shapes and colour rules as values, the pointer writes on linked nodes, and the operations |
| MergeSort, PtrList | the circular lists of list.h and ptrlist.c and their in-place merge sort |
| CharCodes, TrieLinks, TrieKeys, StringTrie | the case-folding trie of stringtrie.c |
| SearchOrder, Universe | star systems, their index by x and the range queries of universe.c and system.c, on the red-black tree and the lists above |
| MersenneTwister | the random generator of mt19937ar-cok.c against the recurrence of mt19937 (section 26.5.3.2 of ISO/IEC 14882:2011) |
| CivGraph, Civ | civ.c: owners, links and growth |
| WorkerPool | the threads, locks, condition variable and queue of connection.c and server.c, as interleaved atomic steps |
| Economy, Trade, Market | port_update.c, ship.c and port.c: production and trade, on values and on the objects |
| Player | player.c: buying and selling, the position of the ship, and the command table in the trie above |
| CArith | C's truncating division and integer widths where they matter |

Code that changes objects in place is modelled by classes and methods. Each method is specified by a
function of the old state or by the promised property, and the properties over whole runs are lemmas
about those functions. The values an object stands for (the shape of a tree, the nodes of a list, the
places of a trie) are ghost state.

Where the code does less than it is meant to, the model does what the code does:

- A removal from the trie never frees a node one character deep (stringtrie.c:336), although the prefix
  lookup assumes that a node without data has a table (stringtrie.c:210-213). `LookupString` says
  exactly when the lookup follows a null pointer.
- `system_move` erases whoever is at the old x of the system it moves, and a new system has x = 0. The
  first system, which constellation.c:60 puts at (0, 0), is therefore lost from the index.
- The prefix lookup is also how typed commands are found, and moving the ship removes commands. A
  single letter that began a command somewhere else and begins none here, such as "g" at a port,
  makes the server follow that null pointer. `FindCommand` and `StuckAtPort` say exactly when.
- Distances are compared, and moved cargo is returned, through an `int`. `SignKept`, `BuyWorth` and
  `SellWorth` say exactly when that is harmless. For cargo it always is: `BuyFits`, `SellFits` and
  `RunKeepsWorth` show that players, who start with 100000 credits, never move that much of an item
  that has a price.
- The needs of a port type are not checked for repeats or self-references (port_type.c:101-112).
  `KeptIff` says exactly which need lists keep all stocks in bounds, and the invariants are stated for
  those.
- `disconnect_peer` does not read the busy flag again once it has the worker_lock. `RaceWindow` and
  `RaceHappens` say what that leaves open.

## Model

| member | source | states |
|---|---|---|
| RbTree.RbRoot.RotateLeft | rbtree.c:26-47 | on a linked tree at any place, the pointer writes of a left rotation yield the rotated tree, with every parent link right and the same nodes |
| RbTree.RbRoot.RotateRight | rbtree.c:49-70 | the same for a right rotation |
| RbTree.RbRoot.InsertTurn | rbtree.c:76-131 | one turn of the insertion loop does the recolouring of a red uncle, or else the one or two rotations, on the linked nodes |
| RbBalance.FlipKeeps | rbtree.c:82-92 | recolouring moves the only possible red-red pair two levels up and keeps black heights, nodes and order |
| RbBalance.TurnKeeps | rbtree.c:94-105 | the rotations of either uncle-black case end the red-red pair and keep black heights, nodes and order |
| RbTree.RbRoot.InsertColor | rbtree.c:72-135 | after linking a node at a leaf, the tree is a valid red-black tree whose in-order sequence is the old one with the node at that place; at most two rotations |
| RbTree.RbRoot.LinkNode | rbtree.h:167-174 | the node becomes a red leaf at the link, whichever side of whichever parent, or the root |
| RbBalance.BlackSiblingKeeps | rbtree.c:147-153 | lifting a red sibling gives the short side a black sibling and keeps order and heights |
| RbBalance.LentKeeps | rbtree.c:154-160 | painting the sibling red makes the whole subtree short by one, one level up |
| RbBalance.FarRedKeeps | rbtree.c:163-169 | the inner rotation makes the far nephew red without changing order or heights |
| RbBalance.RepairedKeeps | rbtree.c:170-175 | the last rotation gives a valid tree with the same order |
| RbTree.RbRoot.EraseTurn | rbtree.c:142-212 | one turn of the double-black loop, for a hole on either side, on the linked nodes: it ends with a valid tree or moves the missing height up |
| RbTree.RbRoot.EraseColor | rbtree.c:137-215 | the double-black loop ends with a valid tree of the same nodes in the same order, after at most three rotations |
| RbBalance.BypassRules | rbtree.c:264-281 | removing a node with at most one child leaves a valid tree if it was red, and one level of black missing at its place if it was black |
| RbBalance.BypassOrder | rbtree.c:264-277 | and takes exactly that node out of the order |
| RbTree.RbRoot.Bypass | rbtree.c:264-277 | the pointer writes that splice out a node with at most one child |
| RbBalance.SuccessorRules | rbtree.c:226-262 | with two children, the successor takes the place and colour of the erased node, and what may be missing is the successor's own black |
| RbBalance.SuccessorOrder | rbtree.c:226-262 | and the order loses exactly the erased node |
| RbTree.RbRoot.TakeSuccessor | rbtree.c:226-262 | the pointer writes of the two-child splice, also when the successor is the right child |
| RbTree.RbRoot.Erase | rbtree.c:217-282 | erasing any node of any valid red-black tree leaves a valid one whose in-order sequence is the old one without exactly that node; at most three rotations |
| RbShape.HeightBound | rbtree.c:72-135 | two to the height of a valid tree is at most the square of its size plus one: height <= 2 log2(n + 1) |
| RbTree.RbRoot.First | rbtree.c:355-365 | the first node of the in-order sequence, or null |
| RbTree.RbRoot.Last | rbtree.c:367-377 | the last node of the in-order sequence, or null |
| RbTree.RbRoot.Next | rbtree.c:379-405 | the node that follows in the in-order sequence, null after the last and for a node outside every tree |
| RbTree.RbRoot.Prev | rbtree.c:407-429 | the node that precedes in the in-order sequence, null before the first and for a node outside every tree |
| PtrLists.ListAdd | list.h:58-66 | four writes insert a node anywhere in a circular doubly linked ring |
| PtrLists.ListDel | list.h:107-111 | two writes take a node out of the ring |
| PtrLists.ListMove | list.h:174-178 | a node of a ring is moved behind any other node of the ring, before or after it |
| PtrLists.PtrList.Push | ptrlist.c:31-45 | a new entry with the data comes last, `len` counts it, the other entries and their data stay |
| PtrLists.PtrList.Pull | ptrlist.c:47-65 | the first entry leaves and its data is returned, null for an empty list |
| PtrLists.PtrList.Get | ptrlist.c:67-79 | entry n, or null past the end |
| PtrLists.PtrList.Rm | ptrlist.c:99-111 | exactly entry n leaves |
| PtrLists.MergeLists | ptrlist.c:119-141 | relinking two adjacent runs in place gives the ring with their merge, taking from the left on ties |
| PtrLists.PtrList.MergePass | ptrlist.c:143-165 | one pass merges the runs pairwise, the last incomplete ones too |
| PtrLists.PtrList.Sort | ptrlist.c:167-182 | for every length and every comparison function the sort ends with the same entries in one ring and `len` unchanged; if "not > 0" is a total preorder they are in order, and a stable permutation |
| MergeSort.MergeChunkPermutes | ptrlist.c:143-165 | a pass only permutes, whatever the comparison does |
| MergeSort.MergeChunkStable | ptrlist.c:143-165 | a pass over sorted runs keeps the order of entries that compare equal |
| MergeSort.SortIsStableSort | ptrlist.c:113-182 | doubling passes from single entries end in a sorted stable permutation |
| MergeSort.StableSortUnique | ptrlist.c:113-182 | there is only one sorted stable permutation, so the result is determined |
| CharCodes.IndicesAreCode | stringtrie.c:87-95 | the two table indices of a character determine its code |
| CharCodes.IndicesComeBack | stringtrie.c:19-79 | crunching the character shown for a pair of indices gives those indices back |
| CharCodes.CodeIs | stringtrie.c:19-52 | a code is 32 less than the upper-case character, and the indices are its high and low three bits |
| CharCodes.ShownIs | stringtrie.c:54-79 | what is shown for the indices of any character: capitals in lower case, { to ~ as [ to ^, everything without a code as _, the rest as it is |
| CharCodes.UnfoldIs | stringtrie.c:364-367 | so the string shown for a stored string is that string with each character shown so |
| CharCodes.CodesAre | stringtrie.c:384-397 | and keys are compared by their upper-case characters |
| CharCodes.FoldsTogether | stringtrie.c:19-52 | exactly which characters are taken for the same: the two cases of a letter (and of [ \ ] ^), and all characters without a code of their own |
| CharCodes.SamePath | stringtrie.c:150-164 | two strings reach the same node exactly when they agree character by character up to folding |
| CharCodes.FoldUnfold | stringtrie.c:364-367 | the string shown for a key folds back to that key |
| CharCodes.CodeLessStrict | stringtrie.c:384-397 | the order of keys by their codes is strict |
| StringTrie.Trie.constructor | stringtrie.c:81-85 | the empty trie holds the empty map |
| StringTrie.Trie.AddString | stringtrie.c:137-169 | the folded string maps to the data afterwards and nothing else changes; null and "" are refused; exactly the nodes on the way to the string are new; the trie stays well formed and has no branch without a key two or more codes deep |
| TrieLinks.NodeAdded | stringtrie.c:159-163 | a new node keeps the links one-to-one with the places of the trie |
| TrieLinks.TableAdded | stringtrie.c:154-158 | so does a new table |
| StringTrie.Trie.RmString | stringtrie.c:296-354 | the key is gone and every other key stays with its data; the old data is returned, null if there was none; no node is new and all nodes one code deep stay; pruning leaves no node two or more codes deep without a key at or below it |
| StringTrie.Trie.PruneStep | stringtrie.c:336-351 | one turn of the pruning loop either stops with every remaining node alive or removes one dead node and its dead table |
| TrieLinks.NodeRemoved | stringtrie.c:341-342 | taking a childless node without data out keeps the links and the contents |
| TrieLinks.ChildKeeps | stringtrie.c:343-350 | a node that still has a child leads to a key, so pruning may stop above it |
| StringTrie.Trie.LookupExact | stringtrie.c:261-274 | the data of the folded string, or null |
| StringTrie.Trie.GetTheOnlyChild | stringtrie.c:177-217 | the data of the only key at or below the node, null if there are several; it follows a null pointer exactly on a node without data and tables |
| StringTrie.Trie.LookupString | stringtrie.c:245-258 | the data of the string if it is a key, else of the only key it is a prefix of, else null; a null pointer is followed exactly when the string ends on an emptied node |
| TrieKeys.DeadEndIsShallow | stringtrie.c:336-351 | emptied nodes are one code deep and lead to no key |
| TrieKeys.TwoChildren | stringtrie.c:183-208 | two branches below a node are two completions, because neither is dead |
| StringTrie.DeadEndLeftBehind | stringtrie.c:336-336 | storing and removing "a" leaves such a node, and looking "a" up follows the null pointer |
| TrieKeys.DeadEndIff | stringtrie.c:336-351 | a place is an emptied node exactly if it is one code deep, is among the first codes that have nodes, and no key begins with it |
| StringTrie.Replay | stringtrie.c:137-354 | over every run of additions and removals the trie is the map those edits make, and its nodes one code deep are the first codes of all keys ever added |
| StringTrie.LookupAfter | stringtrie.c:200-213 | after any such run a lookup follows a null pointer exactly for a single character that some key once began with and none does now |
| StringTrie.Trie.IsEmpty | stringtrie.c:356-362 | true exactly when there is no key and no emptied node is left |
| StringTrie.ForEachData | stringtrie.c:400-407 | a call for exactly the keys shorter than 64 characters, with their data, in increasing order of their codes, and with the string shown for whatever string was stored |
| StringTrie.ForEachFrom | stringtrie.c:369-398 | the recursion over one shared buffer |
| TrieKeys.InOrderOnce | stringtrie.c:384-397 | a list in that order visits nothing twice |
| Universes.FloorSqrt | system.c:89-98 | the floor of the square root |
| Universes.RootBelow | universe.c:183-184 | the floored distance is below the limit exactly when the sum of squares is below its square |
| Universes.DistanceBetween | system.c:89-98 | the distance is the largest whole number whose square is not above the sum of the squared differences of the coordinates |
| Universes.DistanceBelow | universe.c:183-184 | it is below the limit exactly for the points inside the circle |
| Universes.Universe.GetSystemAtX | universe.c:226-243 | the indexed system at x, or null if there is none |
| Universes.Universe.InsertSystemIntoRbtree | universe.c:245-266 | a system whose x is free is added to the index, which stays a red-black tree in strictly increasing order of x |
| Universes.Universe.SystemMove | universe.c:268-293 | an occupied x is refused with nothing changed; otherwise the system moves, the occupant of its old x leaves the index and the system is in it. All other systems stay indexed exactly when no other system was at its old x |
| Universes.FirstSystemLost | universe.c:283-285 | the first system, placed at (0, 0), falls out of the index when the next new one is placed (constellation.c:59-62, system.c:18) |
| Universes.Universe.NewSystem | system.c:16-28 | a new system is at x = 0 and not indexed |
| Universes.Universe.GetFirstSystemAfterX | universe.c:122-142 | where the descent ends: the first system from x on, or the last before it |
| Universes.Universe.GetNeighbouringSystems | universe.c:158-195 | for every max_distance, negative ones and an empty index too: the systems a brute-force scan of all systems picks, each once, in increasing x, counted and pushed behind what the list held |
| Universes.Universe.FoundAre | universe.c:174-194 | those are exactly the indexed systems inside the circle, by their coordinates, in increasing x |
| Universes.SignKept | universe.c:155-155 | for every difference of distances: the int returned has the right sign if the difference fits an int, not if it is up to twice as large, and beyond exactly if its low 32 bits read as an int of that sign |
| Universes.FarComparesCloser | universe.c:144-156 | a system 2147483648 further away compares as closer |
| Universes.Universe.NeighboursByDistance | universe.c:206-209 | up to that distance, sorting the neighbours and the origin puts the origin first and the others by distance, and loses none |
| Universes.Universe.OriginTwice | universe.c:208-209 | the origin is in that list a second time exactly if it is indexed and the distance is positive, so its ports are then listed twice |
| MersenneTwister.Recurrence | mt19937ar-cok.c:65-66 | the twist of two neighbouring words is the recurrence step of mt19937 |
| MersenneTwister.Generator.Init | mt19937ar-cok.c:74-87 | the 624 words are the first terms for the seed |
| MersenneTwister.Generator.NextState | mt19937ar-cok.c:119-138 | the three-part refill in place turns one block of 624 terms into the next, seeding with 5489 first if need be |
| MersenneTwister.Generator.Draw | mt19937ar-cok.c:141-156 | draw k since seeding is the tempering of term 624 + k, over any number of refills |
| MersenneTwister.Generator.Int31 | mt19937ar-cok.c:159-174 | the same draw shifted, at least 0 and below 2^31 |
| MersenneTwister.Generator.Real1 | mt19937ar-cok.c:177-193 | the same draw scaled to [0, 1] |
| MersenneTwister.Generator.Real2 | mt19937ar-cok.c:196-212 | the same draw scaled to [0, 1) |
| MersenneTwister.Generator.Real3 | mt19937ar-cok.c:215-231 | the same draw scaled to (0, 1) |
| MersenneTwister.Generator.Res53 | mt19937ar-cok.c:234-238 | 53 bits of two draws scaled to [0, 1) |
| MersenneTwister.Run | mt19937ar-cok.c:119-238 | any mix of these functions reads the tempered terms one after the other |
| MersenneTwister.TemperUndone | mt19937ar-cok.c:149-153 | tempering can be undone, so it loses nothing |
| MersenneTwister.KnownValues | mt19937ar-cok.c:59-84 | the constants, and values of the seeding, the recurrence, the tempering and the scaling |
| Civs.ScanBorder | civ.c:27-34 | the loop finds a system to grow into and none of another civ |
| Civs.Galaxy.IsBorderSystem | civ.c:17-39 | whether the neighbours within the border width include an unowned system and none of another civ, read off their owners |
| Civs.Galaxy.FindUnowned | civ.c:53-69 | if an indexed system is unowned the search ends, with the first unowned system in the smallest circle that has one |
| Civs.Galaxy.GrowCiv | civ.c:43-83 | without a border system nothing changes; otherwise the new system lies inside the first circle, 100000 wider at each turn, that has an unowned one; it gets the civ as owner, one link to the civ's first border system and a place in its list, no other system changes, and the border list changes as the new borders say |
| CivGraph.GrowKeeps | civ.c:71-78 | a growth step keeps the lists disjoint and equal to the owned systems, the links symmetric and inside one owner, and each civ's links a tree; one more system is owned |
| CivGraph.SpawnKeeps | civ.c:122-126 | so does giving a civ its home |
| CivGraph.NoLinkLeaves | universe.c:93-97 | no link leads out of a civ's systems |
| CivGraph.OneComponent | universe.c:93-97 | a set closed under links that has one of a civ's systems has them all: its systems are one component |
| CivGraph.NoCycles | civ.c:71-73 | there is no cycle of links |
| Civs.Galaxy.FindHome | civ.c:95-119 | the home is the first pick that nobody owns or lives near, and there is none exactly if the first ninety-nine picks were in vain, whatever the hundredth is |
| Civs.Galaxy.SpawnCivilizations | civ.c:86-128 | the first civs get homes, none within the minimal distance of a later one, and it stops before the last civ only if that civ's picks were in vain; owners and links once set stay, and every invariant holds |
| Civs.Galaxy.RemoveCivsWithoutHomes | civ.c:130-142 | exactly the civs with homes stay |
| Civs.Galaxy.RoomByCount | civ.c:163-172 | as long as fewer systems are owned than indexed, some indexed system is unowned |
| Civs.Galaxy.CivsFewer | civ.c:163-172 | there are no more civs than owned systems |
| Civs.Galaxy.GrowPass | civ.c:164-172 | a pass keeps every invariant, owners and links; only civs without a border system leave the growing list, and if none is skipped every other one gains a system |
| Civs.Galaxy.GrowAllCivs | civ.c:145-176 | over any number of passes every invariant, owner and link is kept, no search runs out of unowned systems, and fewer than twice the goal are inhabited; the loop ends at the goal, or with no civ that can grow, or with the passes used up, and each pass without skips adds a system |
| Civs.Galaxy.SpawnCivs | civ.c:178-186 | the three phases together: the civs that stay are those with homes, which keep their distance, and owners and links once set stay |
| WorkerPool.StepKeepsInv | connection.c:86-143 | every atomic step of every thread keeps the invariants of locks, flags, queue and wake-ups |
| WorkerPool.ReferenceIsSafe | connection.c:98-138 | in every interleaving a worker that refers to a connection holds workers_lock, or the connection's worker_lock, or is the unique worker its busy flag stands for |
| WorkerPool.OneServes | connection.c:123-138 | two workers never serve one connection |
| WorkerPool.LockOrder | connection.c:111-116 | whoever waits for workers_lock holds no lock, whoever waits for a worker_lock holds at most workers_lock |
| WorkerPool.NoDeadlock | server.c:58-66 | the holder of any lock can move, or waits for a worker_lock whose holder can move |
| WorkerPool.NoLostWakeup | connection.c:175-181 | while a worker sleeps unsignalled, the queue is no longer than the number of workers about to look at it, counting a signal not yet sent |
| WorkerPool.AppendQueues | connection.c:178-178 | the connection comes last in the queue, behind all that were there |
| WorkerPool.StaysQueued | connection.c:107-110 | a step leaves whatever is queued in the queue, unless a worker takes it from the front or disconnect_peer purges it |
| WorkerPool.ReceivedNotLost | connection.c:175-181 | over every run, a connection conn_do_work was called for is about to be queued, is queued, was taken from the front, or was purged |
| WorkerPool.NotLost | connection.c:98-110 | over every run, whatever is queued is still there, was taken from the front, or was purged |
| WorkerPool.FirstComeFirstTaken | connection.c:107-110 | no connection is taken before one that stands before it, unless that one left the queue or it was itself purged |
| WorkerPool.TakenIsServed | connection.c:111-127 | a worker that took a connection is on its way to serving it, served it, or let it go because it is to be disconnected or another worker serves it |
| WorkerPool.LeavingNotServed | server.c:83-92 | once a connection is to be disconnected, no worker that has not tested that yet serves it |
| WorkerPool.WorkersMove | connection.c:86-143 | a worker that cannot move sleeps, has exited or waits for a lock that is not free |
| WorkerPool.ServerMoves | server.c:58-66 | the event loop always moves on unless it is idle or waits for a lock, for the busy flag or for the end of the workers |
| WorkerPool.GoneNotQueued | server.c:58-75 | from the purge on, and after it was freed, a connection is not in the queue |
| WorkerPool.WaitsForWorker | server.c:65-65 | disconnect_peer waits until a worker that was serving when the purge ended has cleared the flag |
| WorkerPool.FreedForGood | server.c:66-75 | what is freed stays so and is never queued or taken again |
| WorkerPool.RaceWindow | server.c:65-66 | when disconnect_peer has the worker_lock, some worker still refers to the connection exactly if the busy flag, which is not read again, is set |
| WorkerPool.RaceHappens | server.c:65-75 | and it can be: a run with one worker and one connection ends with the connection freed while it is served |
| WorkerPool.NobodySleepsAfterShutdown | connection.c:270-284 | after the broadcast no worker is asleep, none ever sleeps again and none takes another item |
| Economy.TickedIs | port_update.c:34-72 | a tick moves one cargo, and takes as much from each cargo it needs, as often as the need is listed |
| Economy.ChangeIs | port_update.c:49-61 | the change fits the stock, the room and every need, and has the sign of the daily change; it is the wanted one unless it uses up the stock, the room or a need |
| Economy.MetIs | port_update.c:54-61 | the change made has the wanted sign and is no larger than the stock of any need; it is the wanted one unless it uses up a need |
| Economy.TickedKeeps | port_update.c:34-72 | stocks stay between 0 and their maximum at a tick of a cargo with such needs |
| Economy.FirstUpdated | port_update.c:34-35 | the cargos change one after the other, from the front of the port's list |
| Economy.KeptIff | port_update.c:34-72 | for any need list: the ticks of a cargo keep all stocks in bounds, from every stock and at every time, exactly if it can never move (no daily change, or its own or a need's maximum is too small), or no other cargo is listed twice and itself at most twice if produced, not at all if consumed |
| Economy.TooMuchTaken | port_update.c:65-71 | otherwise the first tick from the port with one unit of each cargo drives a stock below zero |
| Economy.RepeatedNeedBreaks | port_update.c:65-71 | for instance, another cargo listed twice as a need |
| Economy.SelfNeedBreaks | port_update.c:65-71 | or a consumed cargo that needs itself |
| Economy.WantedIs | port_update.c:38-47 | what one tick wants to change, for either sign and any size of the daily change |
| CArith.CDivIs | port_update.c:38-40 | division truncates: quotient and remainder belong together, and the remainder is smaller than the divisor and has the dividend's sign |
| CArith.ToIntIs | ship.c:94-94 | a long returned as an int is the int equal to it up to a multiple of 2^32 |
| Economy.CounterIs | port_update.c:98-100 | a day's 8640 ticks see each iteration once, in order |
| Economy.DayTotal | port_update.c:17-47 | a day's wanted changes add up to at least the daily change and less than twice it, exactly it when it divides 8640; above 8640 to 8640 times the whole quotient |
| Economy.FullDay | port_update.c:34-100 | that is what a day of ticks of the whole port does to an item no other needs, if its stock and room and, at each of its turns, the stocks of all its needs suffice |
| Economy.VisitMoves | port_update.c:34-72 | one visit of each cargo, in any order, changes such an item by what it wants |
| Trade.BoughtIs | ship.c:94-113 | what is loaded is not negative and never more than asked for, than is in stock, than can be paid for or than fits |
| Trade.BoughtMost | ship.c:106-107 | and it is all of one of these: all that was asked for, all there is, all that fits, or one more could not be paid for |
| Trade.UnloadedIs | ship.c:127-128 | the same for what is sold: all that was asked for, all the ship has, or all the port has room for |
| Trade.BuyIs | player.c:484-505 | a purchase in full: when there is none, how much goes from the stock to the hold, which gets an entry for the item even for nothing, what is paid, and that nothing else changes |
| Trade.SellIs | player.c:534-555 | a sale in full |
| Trade.BuyKeeps | player.c:490-505 | buying keeps stocks in bounds and credits and hold at 0 or above, whatever becomes of the amount as an int |
| Trade.SellKeeps | player.c:541-555 | so does selling, if the item is free or the amount moved fits an int |
| Trade.BuyWorth | ship.c:94-113 | buying keeps credits plus hold at base prices exactly when the item is free or the amount moved fits the int it is returned as |
| Trade.SellWorth | ship.c:118-141 | the same for selling |
| Trade.BuyFits | connection.c:164-164 | a player worth less than 2147483648 never buys more of a priced item than fits an int; players start with 100000 credits and an empty hold |
| Trade.SellFits | ship.c:118-141 | nor sells more |
| Trade.LargeSale | ship.c:118-141 | a player worth exactly 2147483648 can end up with that much debt |
| Trade.RunKeepsInv | port_update.c:32-74 | over every interleaving of ticks, purchases and sales at any ports, stocks stay between 0 and their maximum, and credits and ship cargo at 0 or above, if the need lists are as above and the players are worth less than 2147483648 at the start |
| Trade.RunKeepsWorth | player.c:490-555 | credits plus hold at base prices is constant over every such run, so it stays below that bound |
| Trade.RunKeepsTotal | ship.c:106-131 | over every run without ticks, whatever the needs and however large the amounts, the total of each item over all ports and ships is constant |
| Market.Port.constructor | port.c:37-76 | port_genesis makes one cargo an item, as drawn, at the item's base price |
| Market.Port.AddNeeds | port.c:82-86 | with its needs looked up, the new port has exactly the cargos drawn, with all the needs of its type, repeats and self-references too |
| Market.Port.Update | port_update.c:27-75 | update_port in place is the fold of ticks over the port's list, for any needs |
| Market.UnlistedAt | list.h:132-136 | an emptied entry leaves the ship's list and the others keep their order |
| Market.Ship.MoveTo | ship.c:94-113 | both amounts, the new entry and the truncated return value |
| Market.Ship.MoveFrom | ship.c:118-141 | both amounts, the removal of an emptied entry and the truncated return value |
| Players.Player.Buy | player.c:466-519 | cmd_buy in place does to port, ship and credits what AfterBuying says, in every branch, which `BuyIs` spells out |
| Players.Player.Sell | player.c:523-576 | cmd_sell in place does what AfterSelling says, in every branch, which `SellIs` spells out |
| Players.NotBase | player.c:688-756 | no command of a place has the name of a base command |
| Players.Player.AddBaseCommands | player.c:751-756 | the command trie offers exactly the base commands |
| Players.Player.Go | player.c:682-738 | afterwards the ship is there and the command trie offers exactly the base commands and those of the place, each with its handler; the first characters of all commands ever offered keep their nodes |
| Players.Player.CurrentPlayerSystem | player.c:608-638 | the system the ship is in, the port's or the planet's |
| Players.Player.Hyper | player.c:237-274 | the ship goes exactly to systems the current one links to |
| Players.Player.Jump | player.c:277-294 | the ship goes to any system that was found |
| Players.Player.Dock | player.c:297-317 | from a planet docking succeeds exactly at a port on that planet, from a system exactly at a port of that system, and elsewhere never; it keeps the current system |
| Players.Player.Orbit | player.c:320-341 | orbiting succeeds exactly at a planet of the system, and keeps the current system |
| Players.Player.LeavePort | player.c:344-360 | leaving a port keeps the current system |
| Players.Player.LeavePlanet | player.c:363-374 | leaving a planet keeps the current system |
| Players.Player.FindCommand | cli.c:117-121 | the handler of exactly the command with the typed name, or else of the only one it abbreviates, and it may run at the ship's place; a null pointer is followed exactly for a single character that began commands elsewhere and begins none here |
| Players.Player.RunCommand | cli.c:86-125 | whatever is typed: the server follows a null pointer exactly in that case, otherwise the meant handler runs or there is none; the handler's assertions about the place hold, it moves the ship exactly when and where it should, and only a link or a jump leads to another system |
| Players.StuckAtPort | player.c:700-726 | at a port, for a player who came through a system, those characters are exactly g, m, j, d and o |

## Left out

- RbTree.RbRoot.EraseTurn: the two mirrored halves of the loop are one body with a flag for the side; parent and colour are two fields rather than one word.
- RbTree.RbRoot.Next: a node with a parent that is in no tree is not modelled; the tree is found through the root the node belongs to.
- PtrLists.PtrList.Sort: the comparison is a function of the data alone, without the extra argument; the poison values of list_del and the freeing of entries are not modelled.
- StringTrie.Trie.AddString: data is never null; the source accepts null data, which makes a key that cannot be found.
- StringTrie.Trie.RmString: that removed nodes are freed is not modelled; st_destroy is not modelled.
- StringTrie.ForEachData: the callback is a list of calls, so it cannot change the trie while it is visited.
- Universes.Universe.GetSystemAtX: rb_entry is a map from nodes to systems instead of pointer arithmetic; coordinates are unbounded, so overflow of a long is not modelled.
- Universes.FloorSqrt: the rounding of double arithmetic in system_distance is not modelled.
- Universes.Universe.NeighboursByDistance: the order is promised up to the distance where comparing fails, and nothing is claimed about whether constellation.c ever places systems that far apart; that get_neighbouring_ports then lists the ports of these systems is not modelled.
- MersenneTwister.Generator.Real1: doubles are real numbers; seeding from an array is not modelled.
- Civs.Galaxy.GrowCiv: the lists of systems, links and border systems are sequences; names and printed text are not modelled.
- Civs.Galaxy.GrowAllCivs: how the lottery weighs the power of a civ is not modelled, only that it may pass any civ over; that it ends is a matter of probability and not claimed.
- Civs.Galaxy.FindHome: the choices of the random generator are a parameter.
- WorkerPool.ReferenceIsSafe: freeing a connection is not free of races, see `RaceWindow`; a connection is assumed not to be queued when it is added, and the starting and joining of threads is not modelled.
- WorkerPool.NoDeadlock: a worker that comes back to a connection which was freed while it served is outside the claim.
- Trade.RunKeepsInv: prices are the non-negative base prices, and credits do not overflow a long.
- Market.Ship.MoveTo: the name tries of ships and ports are maps by item: no item name is a folded prefix of another, so that a lookup finds the item it names, and what a prefix lookup does in these tries is not modelled.
- Market.Ship.MoveFrom: the same for the lookup in the ship's name trie.
- Market.Port.constructor: names are a map by item, as above; the drawing of maximum, stock and daily change is a parameter; a failing allocation is not modelled.
- Players.Player.Buy: parsing of the amount and the name is not modelled; the name typed is already an item, so abbreviated item names and the null pointer a lookup of them may follow are left out.
- Players.Player.Sell: the same for selling.
- Players.Player.RunCommand: the trimming of the command line and the lookups of systems, ports and planets by name are parameters; handlers that only print do nothing here, and buying and selling are `Buy` and `Sell`.
- Sockets, event callbacks, signals, logging, configuration files, maps and the placement of stars and planets are not part of this model.
