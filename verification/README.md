# Verification of the selector engine, the callback machinery and the event runtime

This project models, in Dafny, the parts of the home-automation server and of its web client whose
correctness is not visible from any one function, and proves what they promise. `dafny verify
dfyconfig.toml` checks everything.

**The selector engine** (Sizzle, in the jQuery 2.1.3 of the web client). `dom.dfy` is the document, a
finite ordered forest. `selectors.dfy` gives the plain meaning of compiled matchers and shows it to be
the chain of elements of section 8 of Selectors Level 3; `matcher.dfy` runs them with the per-node
caches, where one array is shared along a walk and nested combinators overwrite each other's slots, and
shows that the caches never show. `positional.dfy` moves matches between two arrays in place,
`nthchild.dfy` searches from cached indexes, `docorder.dfy` compares and sorts nodes, `comparator.dfy`
says what a sort of any nodes may rely on, `boundedcache.dfy` and `tokenizer.dfy` hold the memo caches and the tokenizer whose arrays are shared
with them.

**The callback machinery** of the same file. `callbackspec.dfy` is an abstract machine of callback
lists: turns taken, turns pending, and a stack of firings under way. `callbackplan.dfy` says
who makes which calls, the program or the scripts of handlers, which leaves exactly one run. `callbacks.dfy`
and `callbackruntime.dfy` are the code, one array and three indices per list with handlers that call back,
proved to make that run. `callbacklaws.dfy`, `callbackoptions.dfy` and `callbackentries.dfy` prove the laws
of lists and `deferred.dfy` and `progress.dfy` those of Deferred for every run of the machine,
`deferredruns.dfy` what they mean for a program that uses a Deferred. `when.dfy` treats `when`, and
`fxspec.dfy` and `fxqueue.dfy` the fx queue with its plan and its code.

**The runtime**. `eventpipeline.dfy` is the protocol from a posted event to the consumer threads, step
by step, with its liveness; `ports.dfy` the port values, their events and the browser's copy;
`endtoend.dfy` joins the two. `hexcoding.dfy`, `devicewire.dfy` and `devicesession.dfy` are the wire path to
a device,
`reconnect.dfy` the reconnecting WebSocket, `sqlbuilder.dfy` the statements of the data mapper.

Where the code changes state, the model is a class or a method over arrays and objects, proved against
a specification; the laws are lemmas about the specification. Protocols with several threads are state
machines over their steps. Input and output, the clock and foreign libraries appear as parameters.

Eight results differ from what one might expect of the code:

- A set matcher without a pre-filter can lose a match that another group's, run before it, has made,
  exactly when its post-filter rejects it (`Positional.EarlierMatchKept`, `Positional.EarlierMatchLost`).
  The last group runs first.
- The fallback comparator puts a parentless node other than the document after its own descendants; for
  nodes of one tree its sign is document order exactly if neither is such a node
  (`DocumentOrder.ComparisonDecides`, `DocumentOrder.ParentlessLast`).
- The same comparator is a strict order on all nodes, but ties are not transitive, so that a sort of nodes
  from several trees outside the document has no determined result (`ComparatorLaws.ComparisonTransitive`,
  `ComparatorLaws.TiesNotTransitive`).
- `:first-child` and its kin accept a parent of any kind, so that the root element of a document matches,
  which by the standard it does not; with a parent element the two agree (`NthChild.AgreesWithStandard`,
  `NthChild.RootIsFirstChild`).
- The memo caches are bounded only for a positive `cacheLength` (`BoundedCaches.StoreBounded`,
  `BoundedCaches.NoLimitUnbounded`), and a key stored again before it is forgotten is forgotten with its
  first copy (`BoundedCaches.LiveExactly`).
- `process_input` passes one byte less than it received to `hex_decode`: it reads the frames that devices
  send (a NUL and one byte after the encoding) but would lose the last byte of frames such as the server
  writes (`DeviceWire.ServerReads`).
- `close()` between two attempts does not stop the pending one; the client may be OPEN afterwards
  (`Reconnecting.CloseBetweenAttempts`). The connection timeout is not cleared by `onclose`, whose own
  variable of the same name hides it; that turns out to be harmless
  (`Reconnecting.ReconnectingWebSocket.OnConnectTimeout`), and the `timedOut` flag is never set when a
  close event arrives.
- Silent updates leave the browser's copy behind, exactly when the port's projection has changed since
  its last event (`Ports.SilentChanges`, `Ports.SilentChangeHidden`).

## Model

| member | source | states |
|---|---|---|
| `Selectors.SelectsIffChain` | web/lib/js/jquery-2.1.3.js:2275-2331 | A selector group, read right to left, selects an element if and only if there is a chain of elements, one per compound, that fits every compound, every combinator and the context (section 8 of Selectors Level 3). |
| `Selectors.ChainToSelects` | web/lib/js/jquery-2.1.3.js:2299-2330 | One half of it: the last element of any such chain is selected. |
| `Selectors.SelectsToChain` | web/lib/js/jquery-2.1.3.js:2299-2330 | The other half, constructively: a selected element ends a chain. |
| `Selectors.WalkFindsRelated` | web/lib/js/jquery-2.1.3.js:2090-2113 | For each of the four combinators, the plain walk along parentNode or previousSibling succeeds if and only if some node standing in the standard's relation passes the inner matcher. |
| `Selectors.DescendantWalk` | web/lib/js/jquery-2.1.3.js:2106-2113 | The same for the descendant combinator: all ancestors count. |
| `Selectors.AdjacentWalk` | web/lib/js/jquery-2.1.3.js:2090-2098 | The same for "+": the walk stops at the nearest element, with no element between. |
| `Selectors.AnchorMeans` | web/lib/js/jquery-2.1.3.js:2282-2297 | The foundational matcher holds exactly when the context, or one of the contexts, stands in the leading (or the implied descendant) relation, or the context is not the outermost one. |
| `Selectors.FilterMeans` | web/lib/js/jquery-2.1.3.js:2302-2330 | Pushing a filter onto the matchers adds exactly that filter to what they ask. |
| `Selectors.CombinatorMeans` | web/lib/js/jquery-2.1.3.js:2300-2301 | Wrapping the matchers in a combinator asks exactly for a related element that they accept. |
| `Selectors.OnlyWithinContext` | web/lib/js/jquery-2.1.3.js:2289-2297 | From an outermost context in HTML a selector without a leading combinator selects only descendants of the context (one of the contexts), whatever combinators it has. |
| `Selectors.ContextIgnored` | web/lib/js/jquery-2.1.3.js:2289-2297 | Outside the outermost context, and in XML, the context makes no difference to such a selector. |
| `MatcherEngine.Engine.WalkCached` | web/lib/js/jquery-2.1.3.js:2101-2135 | The walk that shares one array among its nodes and reuses results found on the way answers as the uncached walk does, and leaves every cache entry of the run truthful, although nested combinators overwrite the one slot per direction. |
| `MatcherEngine.Engine.Recall` | web/lib/js/jquery-2.1.3.js:2118-2122 | A reused result, copied back into the walk's own array, makes the entries of all nodes passed true. |
| `MatcherEngine.Engine.Visit` | web/lib/js/jquery-2.1.3.js:2123-2131 | Storing the array before the inner match leaves the entries of all inner combinators truthful. |
| `MatcherEngine.Engine.WalkFirst` | web/lib/js/jquery-2.1.3.js:2092-2098 | The walk of ">" and "+", which stops at the closest node, answers as the uncached meaning and keeps the caches truthful. |
| `MatcherEngine.Engine.WalkAll` | web/lib/js/jquery-2.1.3.js:2106-2113 | The walk taken for XML does too. |
| `MatcherEngine.Engine.Match` | web/lib/js/jquery-2.1.3.js:2085-2150 | Running any compiled matcher gives its uncached meaning, whatever the caches already hold. |
| `MatcherEngine.Engine.MatchAll` | web/lib/js/jquery-2.1.3.js:2138-2150 | Trying matchers from the last to the first accepts exactly when all accept. |
| `MatcherEngine.Engine.MatcherFromTokens` | web/lib/js/jquery-2.1.3.js:2275-2331 | The matcher compiled from a group without positional filters accepts exactly what the group selects, in every document and context. |
| `MatcherEngine.Engine.Compile` | web/lib/js/jquery-2.1.3.js:2432-2462 | Compiling all groups gives one such matcher for each, the last group first. |
| `MatcherEngine.Engine.MatchElements` | web/lib/js/jquery-2.1.3.js:2357-2383 | The element loop keeps, in order, the candidates that some matcher accepts, for any order of candidates within one run. |
| `MatcherEngine.Engine.Select` | web/lib/js/jquery-2.1.3.js:2333-2462 | Compiling a selector and running it keeps exactly the candidates for which a chain of elements exists, however the caches were filled by earlier runs and whatever the document has become since. |
| `MatcherEngine.Engine.Extend` | web/lib/js/jquery-2.1.3.js:2299-2330 | One token: a combinator wraps the matchers so far, a filter joins them, and the result means one token more. |
| `MatcherEngine.Engine.BeginRun` | web/lib/js/jquery-2.1.3.js:2345-2351 | A new outermost run makes every older cache entry unusable, so that the document may change between runs. |
| `MatcherEngine.Engine.MatchOne` | web/lib/js/jquery-2.1.3.js:2359-2365 | An element is kept exactly if some matcher accepts it. |
| `MatcherEngine.SomeAcceptsIffSelects` | web/lib/js/jquery-2.1.3.js:2432-2462 | Some compiled matcher accepts an element if and only if a chain for some group ends in it. |
| `Positional.Condense` | web/lib/js/jquery-2.1.3.js:2161-2180 | condense returns the passing elements and the list of exactly their indices. |
| `Positional.IndicesRanked` | web/lib/js/jquery-2.1.3.js:2161-2180 | That index list holds each passing index at its rank among the passing ones. |
| `Positional.Pick` | web/lib/js/jquery-2.1.3.js:972-988 | A positional pseudo moves to matches exactly the elements at chosen positions and leaves every other slot of both arrays as it was. |
| `Positional.Unmatch` | web/lib/js/jquery-2.1.3.js:2219-2231 | Elements that fail the post-filter return to their original slots. |
| `Positional.MoveMatches` | web/lib/js/jquery-2.1.3.js:2248-2256 | Matches of the pre-filtered elements move from seed to results at their original indices. |
| `Positional.RunPicked` | web/lib/js/jquery-2.1.3.js:2214-2231 | After the pre-filter, an element stays matched if it was matched before or stands at a chosen position and, with a post-filter, its rank among those survives in that. |
| `Positional.Run` | web/lib/js/jquery-2.1.3.js:2182-2273 | For a seed and no post-finder, with or without pre-filter and post-filter, nested ones included: at every index one of seed and results holds the original element; results gains, in order, exactly the list that filtering, taking the chosen positions and filtering again gives; an element is matched exactly if it passes, stands at a chosen position among those that pass, and passes the post-filter; earlier matches stay, or without a pre-filter go through the post-filter with the rest. |
| `Positional.WinnersMeant` | web/lib/js/jquery-2.1.3.js:2182-2273 | The elements that end in results are, in order, those that the selector means when read from left to right, however deep its post-filters are nested. |
| `Positional.PickedMeant` | web/lib/js/jquery-2.1.3.js:2214-2231 | The same from the positional pseudo on, with earlier matches in the list. |
| `Positional.PostMeans` | web/lib/js/jquery-2.1.3.js:2214-2231 | Without a post-filter exactly the earlier matches and the elements at chosen positions stay; with a plain one, those of them that pass. |
| `Positional.SlotMeans` | web/lib/js/jquery-2.1.3.js:2182-2273 | At one index: what setMatcher leaves in results there. |
| `Positional.WithinIndices` | web/lib/js/jquery-2.1.3.js:2214-2231 | Selecting among selected indices gives the ranks of ranks. |
| `Positional.PositionalMeaning` | web/lib/js/jquery-2.1.3.js:2182-2273 | With empty results, a pre-filter and a plain post-filter, an element ends in results if and only if it passes the first, its rank among the survivors is a chosen position, and it passes the second. |
| `Positional.EarlierMatchKept` | web/lib/js/jquery-2.1.3.js:2199-2256 | A set matcher run on arrays with earlier matches keeps such a match if and only if it has a pre-filter, has no post-filter, or the match wins in its post-filter, nested or plain; a plain one accepts or rejects the element. |
| `Positional.EarlierMatchLost` | web/lib/js/jquery-2.1.3.js:2199-2256 | A concrete case in which the set matcher that runs second loses an earlier match: no pre-filter and a post-filter that rejects it. |
| `NthChild.ChildFilter.SeekForward` | web/lib/js/jquery-2.1.3.js:1703-1721 | From any truthful cached index the wrap-around search ends and gives the element's true index and 1-based rank. |
| `NthChild.ChildFilter.SeekFromLast` | web/lib/js/jquery-2.1.3.js:1727-1743 | Counting from the last child gives the true rank from the end and records true ranks on the elements passed. |
| `NthChild.ChildFilter.SeekFromFirst` | web/lib/js/jquery-2.1.3.js:1727-1743 | The uncached count from the first child, also of one element type, gives the true rank. |
| `NthChild.ChildFilter.Alone` | web/lib/js/jquery-2.1.3.js:1686-1698 | The sibling loop finds out exactly whether no counted sibling lies in the given direction. |
| `NthChild.ChildFilter.Test` | web/lib/js/jquery-2.1.3.js:1664-1750 | For every sequence of tests in one run the answer is that of sections 6.6.5.2 to 6.6.5.11 of Selectors Level 3, with any parent node for the standard's parent element; neither cache ever shows in it. |
| `NthChild.RanksAreSizes` | web/lib/js/jquery-2.1.3.js:1703-1743 | The ranks it speaks of are the sizes of sets: of the siblings before or after the element that are elements, or have its name. |
| `NthChild.AgreesWithStandard` | web/lib/js/jquery-2.1.3.js:1679-1683 | With a parent element the code selects exactly what the standard does; without one the standard selects nothing. |
| `NthChild.RootIsFirstChild` | web/lib/js/jquery-2.1.3.js:1679-1683 | A document's only child is :first-child by the code and not by the standard. |
| `NthChild.OnCycleIffTerm` | web/lib/js/jquery-2.1.3.js:1746-1748 | For all integers a and b and every rank, the final test with truncating remainder holds if and only if a*n+b is the rank for some n >= 0. |
| `NthChild.TermFromCycle` | web/lib/js/jquery-2.1.3.js:1746-1748 | The half that yields such an n. |
| `NthChild.CycleFromTerm` | web/lib/js/jquery-2.1.3.js:1746-1748 | The half that starts from one. |
| `DocumentOrder.SiblingCheck` | web/lib/js/jquery-2.1.3.js:923-944 | The scan along nextSibling tells the order of two siblings; a missing node comes first. |
| `DocumentOrder.Sorter.SortOrder` | web/lib/js/jquery-2.1.3.js:1333-1385 | For any two nodes the fallback comparator ends with the value of Comparison: document order within a tree except for parentless nodes other than the document, the preferred document's nodes first otherwise; comparing a node with itself sets hasDuplicate. |
| `DocumentOrder.ComparisonDecides` | web/lib/js/jquery-2.1.3.js:1333-1385 | For two nodes of one tree the comparator's sign is preorder document order if and only if each has a parent or is the document (or they are the same). |
| `DocumentOrder.ParentlessLast` | web/lib/js/jquery-2.1.3.js:1347-1355 | A concrete root outside the document that sorts after its child. |
| `DocumentOrder.Sorter.ByAncestors` | web/lib/js/jquery-2.1.3.js:1362-1385 | For nodes of different parents the comparison of ancestor lists gives that value. |
| `DocumentOrder.SortedInOrder` | web/lib/js/jquery-2.1.3.js:1466-1469 | A permutation whose neighbours the comparator has compared and not found the wrong way round is in document order. |
| `DocumentOrder.Sorter.Sort` | web/lib/js/jquery-2.1.3.js:1333-1337 | Whatever comparisons the host's sort makes, hasDuplicate is set if the list it leaves has equal neighbours, for these have been compared. |
| `DocumentOrder.PartingIndex` | web/lib/js/jquery-2.1.3.js:1372-1375 | The walk down two ancestor lists stops at the first entry where they differ. |
| `DocumentOrder.Ancestors` | web/lib/js/jquery-2.1.3.js:1362-1370 | Unshifting one parent after the other gives the path from the root. |
| `DocumentOrder.Parting` | web/lib/js/jquery-2.1.3.js:1372-1380 | Where the two ancestor lists part, the sibling there (or the shorter list) decides document order. |
| `DocumentOrder.OrderInTree` | web/lib/js/jquery-2.1.3.js:1333-1385 | The order within a subtree is the order within the whole tree. |
| `DocumentOrder.DocumentOrderTotal` | web/lib/js/jquery-2.1.3.js:1333-1385 | Of two distinct nodes of a tree exactly one precedes the other. |
| `DocumentOrder.PreorderDistinct` | web/lib/js/jquery-2.1.3.js:1333-1385 | Preorder lists no node twice. |
| `DocumentOrder.SurplusCopies` | web/lib/js/jquery-2.1.3.js:1471-1476 | The first loop of uniqueSort collects exactly the indices of surplus copies, ascending. |
| `DocumentOrder.SpliceOut` | web/lib/js/jquery-2.1.3.js:1477-1479 | Splicing them out from the last to the first removes exactly the surplus copies. |
| `DocumentOrder.KeptStrict` | web/lib/js/jquery-2.1.3.js:1460-1487 | What then remains of a sorted list is strictly increasing. |
| `DocumentOrder.Sorter.UniqueSort` | web/lib/js/jquery-2.1.3.js:1460-1487 | Whatever sort the host has and whichever comparisons it makes: the result has the same set of nodes, and for parented nodes (or the document) of one tree it is strictly increasing in document order; the flag hasDuplicate is right when it is needed. |
| `ComparatorLaws.ComparisonOpposite` | web/lib/js/jquery-2.1.3.js:1339-1385 | For any two nodes, of one tree or of two, exchanging them turns the comparison round. |
| `ComparatorLaws.ComparisonTransitive` | web/lib/js/jquery-2.1.3.js:1339-1385 | Before is transitive over all nodes, whatever trees they belong to. |
| `ComparatorLaws.StandingDecides` | web/lib/js/jquery-2.1.3.js:1347-1355 | The document comes first, then the nodes of the window's document, then other nodes with parents, last those without. |
| `ComparatorLaws.EqualStanding` | web/lib/js/jquery-2.1.3.js:1347-1385 | Of equal standing, nodes of one tree are in document order, parentless nodes in the order of the sort's input if it is known, and nodes of two other trees tie. |
| `ComparatorLaws.TiesNotTransitive` | web/lib/js/jquery-2.1.3.js:1339-1385 | Ties are not transitive: two ordered nodes that both tie with a node of another tree. |
| `Callbacks.CallbackList.RemoveHandler` | web/lib/js/jquery-2.1.3.js:3149-3161 | Splicing out every occurrence of a function, with the firing indices corrected on the way, removes it from the entries that had their turn and from the pending ones, and changes neither group otherwise. |
| `Callbacks.CallbackList.Push` | web/lib/js/jquery-2.1.3.js:3117-3135 | Functions added during a firing become the last pending entries, others the last entries. |
| `Callbacks.CallbackList.AddAll` | web/lib/js/jquery-2.1.3.js:3115-3144 | add on a list with memory that is not firing starts a firing from the first addition. |
| `Callbacks.CallbackList.Call` | web/lib/js/jquery-2.1.3.js:3113-3217 | Each call on a list acts as on a list of turns taken and turns pending; it starts a firing exactly when fire, or add with memory, does so there. |
| `Callbacks.CallbackList.EndFiring` | web/lib/js/jquery-2.1.3.js:3099-3110 | The last statements of fire take the next requested firing, forget the entries of a fired once-and-memory list, or disable the list. |
| `Callbacks.CallbackList.Empty` | web/lib/js/jquery-2.1.3.js:3172-3176 | empty drops all entries, also those of the firing under way. |
| `Callbacks.ScanNext` | web/lib/js/jquery-2.1.3.js:3150-3161 | One splice: the removed index lies among the turns taken exactly when firingIndex is decreased. |
| `Callbacks.NextEntry` | web/lib/js/jquery-2.1.3.js:3093-3094 | The function at firingIndex is the first pending entry. |
| `Callbacks.CallbackList.Splice` | web/lib/js/jquery-2.1.3.js:3151-3160 | One splice removes the function and decreases the firing length and index where it lies before them. |
| `Callbacks.CallbackList.RemoveHandlers` | web/lib/js/jquery-2.1.3.js:3146-3165 | remove with several functions removes each. |
| `Callbacks.CallbackList.Disable` | web/lib/js/jquery-2.1.3.js:3178-3181 | disable drops the entries, the requests and the memory. |
| `Callbacks.CallbackList.Lock` | web/lib/js/jquery-2.1.3.js:3187-3193 | lock stops keeping requests and, without memory, disables. |
| `Callbacks.CallbackList.StartFiring` | web/lib/js/jquery-2.1.3.js:3087-3092 | The first statements of fire put the whole list, or what was added to it, before the index. |
| `Callbacks.CallbackList.Advance` | web/lib/js/jquery-2.1.3.js:3093 | Stepping the index moves to the next pending entry, or past the last. |
| `Callbacks.CallbackList.Break` | web/lib/js/jquery-2.1.3.js:3094-3097 | Leaving the loop on false forgets the memory and the entries still pending in this firing. |
| `CallbackRuntime.Runtime.Fire` | web/lib/js/jquery-2.1.3.js:3086-3111 | fire, with handlers that re-enter any list, makes a legal run of the abstract machine and leaves every list in step with it. |
| `CallbackRuntime.Runtime.Turn` | web/lib/js/jquery-2.1.3.js:3093-3098 | One pass of the loop runs the first pending entry with the firing's data, and carries out all that its function does; with false and stopOnFalse it abandons the rest. |
| `CallbackRuntime.Runtime.OwnTurn` | web/lib/js/jquery-2.1.3.js:3283-3292 | Deferred's own handlers set the state, disable the opposite list and lock the progress list. |
| `CallbackRuntime.Runtime.Perform` | web/lib/js/jquery-2.1.3.js:3113-3217 | The call is made and carried through, however deep in handlers, and nothing else is begun: all lists end in step with the machine, and firings already under way stay under way. |
| `CallbackRuntime.Runtime.TakeTurns` | web/lib/js/jquery-2.1.3.js:3093-3098 | The loop of fire ends, with nothing pending unless the list was disabled. |
| `CallbackRuntime.Runtime.UserTurn` | web/lib/js/jquery-2.1.3.js:3094-3097 | A user's function makes exactly the calls of its script and returns as it says; afterwards the firing under way is where the machine says. |
| `CallbackRuntime.Runtime.Invoke` | web/lib/js/jquery-2.1.3.js:3094 | Invoking a function makes the calls of the next script, in order and completely, or none after the last script. |
| `CallbackSpec.NextWellFormed` | web/lib/js/jquery-2.1.3.js:3061-3219 | Every event keeps the stack of firings well formed: distinct lists, each of them firing. |
| `CallbackLaws.NoTurnSkippedOrRepeated` | web/lib/js/jquery-2.1.3.js:3086-3165 | From the beginning of a firing, without stopOnFalse, empty, disable or a lock without memory, under any nested calls: turns are taken in order of registration, none twice, and every entry pending at first or added since has had its turn, is still pending, or was removed before its turn. |
| `CallbackLaws.EveryFiring` | web/lib/js/jquery-2.1.3.js:3086-3165 | The same for every firing of every run of lists made from nothing, from the very event that starts it; when it ends, every entry that was pending or was added has had its turn or was removed before it. |
| `CallbackLaws.FiringBegins` | web/lib/js/jquery-2.1.3.js:3087-3092 | Each event that starts a firing leaves the list at the beginning of one, its entries in order of registration. |
| `CallbackLaws.OrderedStep` | web/lib/js/jquery-2.1.3.js:3061-3219 | Every event keeps the entries of all lists in order of registration. |
| `CallbackLaws.CutRun` | web/lib/js/jquery-2.1.3.js:3061-3219 | A run can be cut anywhere into two runs. |
| `CallbackLaws.RunLists` | web/lib/js/jquery-2.1.3.js:3061-3219 | Lists made by the code make the one complete run of the given calls and of the scripts of their functions, and it obeys these laws in every firing. |
| `CallbackLaws.MildStep` | web/lib/js/jquery-2.1.3.js:3086-3165 | One event of such a firing keeps that account. |
| `CallbackLaws.FiringsInOrder` | web/lib/js/jquery-2.1.3.js:3199-3209 | On a list neither disabled nor locked, firings begin in the order of the requests; those requested during a firing wait in line, and none is lost. |
| `OptionLaws.Silenced` | web/lib/js/jquery-2.1.3.js:3178-3193 | After disable, or lock while nothing is remembered, no handler of the list runs, whatever is added or fired, until empty revives it. |
| `OptionLaws.LockedWith` | web/lib/js/jquery-2.1.3.js:3187-3209 | After lock with something remembered, every later turn gets that, and fire changes nothing any more. |
| `OptionLaws.OnceOneFiring` | web/lib/js/jquery-2.1.3.js:3199-3203 | With once, all turns of a run get the arguments of one call of fire. |
| `OptionLaws.OnceEach` | web/lib/js/jquery-2.1.3.js:3099-3110 | With once, no registration has more than one turn in the whole run; turns come in order of registration. |
| `OptionLaws.OnceThenSilent` | web/lib/js/jquery-2.1.3.js:3107-3109 | With once and without memory, nothing runs after the first firing, also after empty. |
| `OptionLaws.MemoryOfLast` | web/lib/js/jquery-2.1.3.js:3086-3097 | In every run, what a list with memory remembers is what its last firing, replays included, was begun with, unless it was disabled or a handler stopped the firing since; a list without memory remembers nothing. |
| `OptionLaws.AddReplays` | web/lib/js/jquery-2.1.3.js:3136-3142 | add on an idle list starts a firing exactly when something is remembered, with that, and with nothing pending but what was added. |
| `OptionLaws.FalseStops` | web/lib/js/jquery-2.1.3.js:3093-3098 | A handler that returns false under stopOnFalse is the last of its firing; any other answer changes nothing in any list. |
| `EntryLaws.RemovedSilent` | web/lib/js/jquery-2.1.3.js:3146-3165 | A function that has been removed has no turn until it is added again. |
| `EntryLaws.RemoveKeepsOthers` | web/lib/js/jquery-2.1.3.js:3146-3165 | remove takes out exactly the entries of the functions given: all others keep their turns to come. |
| `EntryLaws.EmptyForgets` | web/lib/js/jquery-2.1.3.js:3172-3176 | After empty only what was added later ever runs. |
| `EntryLaws.EmptyPassesOver` | web/lib/js/jquery-2.1.3.js:3093-3135 | empty leaves the index of a firing where it is: as many functions added after it as there were turns in that firing are passed over, those after them have turns. |
| `EntryLaws.FiringTakesAll` | web/lib/js/jquery-2.1.3.js:3086-3106 | A firing that fire begins, or a queued request, has all entries of the list before it. |
| `EntryLaws.UniqueRun` | web/lib/js/jquery-2.1.3.js:3117-3125 | With unique, a list never holds a function twice, in any run. |
| `EntryLaws.AddedPresent` | web/lib/js/jquery-2.1.3.js:3115-3135 | Every function given to add is in the list afterwards, with a turn to come if the list is firing and did not hold it. |
| `Deferreds.SettlesOnce` | web/lib/js/jquery-2.1.3.js:3228-3312 | In every run, re-entrant handlers included: the first resolve or reject settles; handlers of the other outcome never run; those of this outcome run with its arguments, once each, in order of registration, and all of them, whenever added, have run once no firing is under way. |
| `Deferreds.RunInvariant` | web/lib/js/jquery-2.1.3.js:3228-3312 | What every reachable state keeps: nothing settled, or a winning list whose run and pending handlers are together those registered, a disabled losing list, and the state set by the first turn. |
| `Deferreds.StepInvariant` | web/lib/js/jquery-2.1.3.js:3086-3143 | One event keeps it. |
| `Deferreds.WonCall` | web/lib/js/jquery-2.1.3.js:3115-3144 | done or fail after settlement: the handler becomes pending and will be called with the settling call's arguments. |
| `Deferreds.WonTurn` | web/lib/js/jquery-2.1.3.js:3093-3098 | Each turn of the settled list is the next handler in order of registration, Deferred's own three first. |
| `Deferreds.WonFinished` | web/lib/js/jquery-2.1.3.js:3099-3110 | When its firing ends, all registered handlers have run. |
| `ProgressLaws.ProgressToldBefore` | web/lib/js/jquery-2.1.3.js:3286-3299 | In every run, each turn of a progress handler passes on the arguments of a notify that was called before the Deferred was settled. |
| `ProgressLaws.NeverTold` | web/lib/js/jquery-2.1.3.js:3286-3299 | Without a notify before the first resolve or reject, no progress handler ever runs. |
| `ProgressLaws.NotifyEffect` | web/lib/js/jquery-2.1.3.js:3199-3209 | notify changes nothing once the Deferred is settled, whoever calls it; before that it begins a firing of all progress handlers, or is queued behind those under way. |
| `ProgressLaws.ProgressRun` | web/lib/js/jquery-2.1.3.js:3286-3292 | What every run keeps of the progress list: open until Deferred's own handlers have had their turns, shut from then on, and all it fires with or remembers told by an earlier notify. |
| `ProgressLaws.ClosedAtRest` | web/lib/js/jquery-2.1.3.js:3286-3292 | Once the Deferred is settled and nothing fires, those handlers have had their turns. |
| `DeferredRuns.RunDeferred` | web/lib/js/jquery-2.1.3.js:3228-3312 | The three lists wired as Deferred wires them make the one complete run of the given calls and re-entrant scripts; it obeys these laws, those of the progress list included, ends settled if the program resolves or rejects, and if no handler does, ends as the program's first such call says, its handlers having run in the order in which the program added them. |
| `DeferredRuns.ProgramSettles` | web/lib/js/jquery-2.1.3.js:3294-3299 | A program that resolves or rejects settles the Deferred, whatever the handlers do. |
| `DeferredRuns.ProgramSettlesFirst` | web/lib/js/jquery-2.1.3.js:3294-3299 | If no handler settles it, the program's first resolve or reject does. |
| `DeferredRuns.ProgramRegisters` | web/lib/js/jquery-2.1.3.js:3281-3282 | If no handler adds handlers of a kind, those registered are the program's, in order, after Deferred's own. |
| `Whens.When.constructor` | web/lib/js/jquery-2.1.3.js:3315-3364 | Whatever is given, remaining counts the unresolved ones and the outcome is the one they call for; a single promise is returned with its own outcome. |
| `Whens.When.SubordinateDone` | web/lib/js/jquery-2.1.3.js:3327-3336 | A resolution puts its value in the argument's place, counts it off and resolves the master exactly when it was the last and nothing was rejected. |
| `Whens.When.SubordinateFailed` | web/lib/js/jquery-2.1.3.js:3348-3351 | A rejection settles the master only if it is the first. |
| `Whens.VerdictUnique` | web/lib/js/jquery-2.1.3.js:3315-3364 | The outcome is determined by the subordinates and the order of rejections alone: a single promise's own; else the first rejection, or all values in argument order once nothing is outstanding. |
| `Whens.OutcomeDecided` | web/lib/js/jquery-2.1.3.js:3315-3364 | The master is resolved if and only if every argument is a plain value or a resolved promise, and rejected if and only if some promise is: with what the first rejection gave, or a single promise its own. |
| `Whens.ResolvedValues` | web/lib/js/jquery-2.1.3.js:3327-3346 | What a resolved master passes on: a single promise's own arguments; else for each argument the plain value, the only argument a promise was resolved with, all of several as an array, or undefined for none. |
| `Whens.Settling` | web/lib/js/jquery-2.1.3.js:3333-3335 | Settling one subordinate changes the number of unresolved ones by exactly its share. |
| `Whens.When.Attach` | web/lib/js/jquery-2.1.3.js:3341-3355 | The loop counts off plain values and lets settled promises act at once, in argument order. |
| `Whens.When.Update` | web/lib/js/jquery-2.1.3.js:3327-3336 | The done handler stores the value in its place and resolves at zero. |
| `BoundedCaches.StoreBounded` | web/lib/js/jquery-2.1.3.js:862-869 | Storing keeps all live entries among at most cacheLength remembered keys, repeated keys included, if and only if cacheLength is positive. |
| `BoundedCaches.LiveEntriesBounded` | web/lib/js/jquery-2.1.3.js:859-871 | So live entries never exceed cacheLength. |
| `BoundedCaches.NoLimitUnbounded` | web/lib/js/jquery-2.1.3.js:862-869 | With cacheLength 0 every new entry stays: the bound needs a positive limit. |
| `BoundedCaches.LiveExactly` | web/lib/js/jquery-2.1.3.js:862-869 | After any calls exactly these entries are live: of each key the value of its last call, unless since then one of its calls, that or an earlier one, has become the oldest remembered. |
| `BoundedCaches.KeysOfLast` | web/lib/js/jquery-2.1.3.js:862-867 | The keys remembered are those of the last calls, in order. |
| `BoundedCaches.BoundedCache.Put` | web/lib/js/jquery-2.1.3.js:862-869 | The cache function stores so, for any cacheLength. |
| `Tokenizer.TokensRebuildSelector` | web/lib/js/jquery-2.1.3.js:2008-2083 | For every accepted selector and any lexers returning prefixes: the groups' texts, interleaved with the consumed comma separators, are the selector; no group and no token is empty. |
| `Tokenizer.LexCovers` | web/lib/js/jquery-2.1.3.js:2021-2062 | At every point of the loop the groups, the separators and the text left make up the selector. |
| `Tokenizer.TokenizedTaken` | web/lib/js/jquery-2.1.3.js:2008-2062 | Token by token: each is what the lexer of its own kind matches at its place; within a pass kinds stand in order and nothing between them matches; a new pass begins only when the rest of the pass matches nothing; a comma is taken only then, and a trailing one not from the text; it ends when nothing is left or a whole pass takes nothing. |
| `Tokenizer.TokenizesOneWay` | web/lib/js/jquery-2.1.3.js:2008-2062 | That leaves only one result: groups and rest are determined. |
| `Tokenizer.LeftIsStuck` | web/lib/js/jquery-2.1.3.js:2059-2062 | What is left over is an end of the selector at which neither combinators nor any filter lexer matches. |
| `Tokenizer.PassTaken` | web/lib/js/jquery-2.1.3.js:2034-2057 | One pass takes what comes next until none of its lexers matches any more. |
| `Tokenizer.Sizzle.Scan` | web/lib/js/jquery-2.1.3.js:2021-2062 | The loop ends and computes that tokenization. |
| `Tokenizer.Sizzle.Tokenize` | web/lib/js/jquery-2.1.3.js:2008-2073 | From the cache or anew, tokenize returns a fresh outer array with the selector's tokenization, its excess length, or an error; that tokenization takes from the text, until the end, exactly what comes next; an error or an excess leaves a text from which neither combinators nor any filter lexer takes anything; every live cache entry stays equal to a fresh tokenization. |
| `Tokenizer.Sizzle.Select` | web/lib/js/jquery-2.1.3.js:2471-2527 | select shifts and splices tokens of copies only: all cache entries stay up to date, and the remaining tokens render the text passed on to compile. |
| `Tokenizer.Sizzle.Reduce` | web/lib/js/jquery-2.1.3.js:2481-2526 | What select takes from a single group is exactly a leading ID token before a combinator, where the context allows it, and the last token of the last compound that yields a seed. |
| `Tokenizer.ShiftText` | web/lib/js/jquery-2.1.3.js:2496 | Shifting the first token off is cutting its length off the selector. |
| `Tokenizer.Sizzle.Remember` | web/lib/js/jquery-2.1.3.js:2064-2072 | Caching an accepted selector's groups keeps all entries up to date. |
| `Tokenizer.Sizzle.Pass` | web/lib/js/jquery-2.1.3.js:2034-2057 | One pass takes a combinator and then each filter type once, pushing the texts matched onto the last group. |
| `FxSpec.QueueLaws` | web/lib/js/jquery-2.1.3.js:3877-3941 | In every run: enqueued = started ++ waiting, at most one entry is running, an idle queue has nothing waiting, and every busy period ends with exactly one hooks.empty. |
| `FxSpec.Determined` | web/lib/js/jquery-2.1.3.js:3897-3941 | Two runs by the same program and the same scripts of entries are the same, as far as both have come: nothing happens that they do not ask for. |
| `FxSpec.OneCompleteRun` | web/lib/js/jquery-2.1.3.js:3897-3941 | So there is exactly one complete run. |
| `FxSpec.ScriptsInOrder` | web/lib/js/jquery-2.1.3.js:3914-3924 | Started entries take the scripts in the order in which they are started. |
| `FxSpec.ScriptFollowed` | web/lib/js/jquery-2.1.3.js:3924 | Whatever happens in between, a started entry does exactly what its script says, in order. |
| `FxQueue.Element.MoveOn` | web/lib/js/jquery-2.1.3.js:3897-3930 | The statements of dequeue start the first waiting entry behind the sentinel and let it do what its script says, or report the drained queue, also when the entry calls next synchronously; nothing else is begun. |
| `FxQueue.Element.Dequeue` | web/lib/js/jquery-2.1.3.js:3897-3930 | dequeue, by whomever it is called, moves a running queue on as the running entry's next does, and leaves an idle one idle. |
| `FxQueue.Element.Enqueue` | web/lib/js/jquery-2.1.3.js:3959-3968 | Enqueueing appends; behind a running entry it does no more, otherwise it starts the entry, which does what its script says. |
| `FxQueue.RunQueue` | web/lib/js/jquery-2.1.3.js:3897-3968 | A program that enqueues and dequeues, with entries that enqueue and call next at once, later, more than once or never, makes the one complete run of the queue. |
| `FxQueue.Element.FireEmpty` | web/lib/js/jquery-2.1.3.js:3927-3940 | The drained queue and its hooks are removed, once. |
| `FxQueue.Element.TakeNext` | web/lib/js/jquery-2.1.3.js:3900-3912 | The sentinel is always removed and not counted; the next item is the first waiting entry, if any. |
| `FxQueue.Element.Start` | web/lib/js/jquery-2.1.3.js:3923-3924 | A started entry does what its script says, in order, and nothing else; it may enqueue and call its next at once, and if it does not call next it is still the running one when it returns. |
| `FxQueue.Element.TakeScript` | web/lib/js/jquery-2.1.3.js:3914-3924 | The entry that is started is the first waiting one, and its function is the next script. |
| `EventPipeline.PipelineSafe` | src/events.cc:17-31 | In every reachable state of any interleaving: a sleeping unsignalled consumer has an empty queue, or the producer has yet to notify; if run is false, the stopper has; and what a listener consumed is an in-order, duplicate-free prefix of the events not yet handled at its subscription. |
| `EventPipeline.StepInvariant` | src/httpd/actions/http_events.cc:21-33 | Each step of the posting thread, the handler, a consumer, a stopper or a spurious wakeup keeps this, with push_back and run = false outside the lock. |
| `EventPipeline.ConsumeKeeps` | src/httpd/actions/http_events.cc:59-74 | The consumer's loop, from test to wait to pop, keeps it (JsProcessor::run is the same loop with run always true) and neither drops nor reorders an event. |
| `EventPipeline.StoppedSendsNoMore` | src/httpd/actions/http_events.cc:21-74 | From any state in which run is false, under any schedule, the consumer sends nothing more, but for the one event it was about to pop. |
| `EventPipeline.AddEventKeeps` | src/jsengine/engine.cc:131-135 | push_back, lock, notify and unlock keep it, each handing the duty to notify on to the next. |
| `EventPipeline.Progress` | src/jsengine/engine.cc:156-167 | No deadlock: unless everything is at rest, some thread can take a step. |
| `EventPipeline.InternalRunsEnd` | src/httpd/actions/http_events.cc:53-75 | Without new events the threads cannot run on for ever; Work bounds the number of their steps. |
| `EventPipeline.EventuallyConsumed` | src/httpd/actions/http_events.cc:53-75 | Under every schedule they come to rest, and then each running consumer has consumed every event not yet handled at its subscription and each stopped one has returned. |
| `EventPipeline.StopKeeps` | src/httpd/actions/http_events.cc:28-33 | run = false, lock, notify and unlock keep the invariant. |
| `EventPipeline.HandleInOrder` | src/events.cc:25-31 | Handing an event to listeners one after the other keeps each one's events in order and without gaps. |
| `EventPipeline.QuiescentConsumed` | src/httpd/actions/http_events.cc:53-75 | At rest a running consumer has consumed every event not yet handled at its subscription. |
| `Ports.PortState.SetValue` | src/models/port.cc:17-33 | An equal value does nothing; a change posts one port_set event and, for a network device, one command, unless it is silent; the value is set. |
| `Ports.PortState.SetFlag` | src/models/port.cc:7-15 | A flag sets 1 or 0 and posts an event exactly when that changes the value; from 0 or 1, exactly when it changes what the port shows. |
| `Ports.ActivePorts.SetAll` | src/models/port.cc:17-33 | A run of calls on the active devices' ports gives the values and posts the events that the laws below speak of. |
| `Ports.EventsTell` | src/models/port.cc:17-33 | Without silent changes the events of each port form a chain, each old value being the new value before, and the last one tells the port's value. |
| `Ports.DevicesManager.OnMessage` | web/coffee/devices_manager.js.coffee:17-40 | A message changes exactly the first device with its id: every port with the port's id, or the connected flag; a port_set of an unlisted device raises an error and changes nothing. |
| `Ports.ReplayedPort` | web/coffee/devices_manager.js.coffee:17-25 | After a replay a port shows the last event about it, or what it showed before. |
| `Ports.PrefixReplay` | web/coffee/devices_manager.js.coffee:17-25 | Replaying any prefix of the events on an earlier snapshot shows every port's to_json_object projection after so many changes. |
| `Ports.ShownMeans` | src/models/port.cc:40-53 | A port whose copy is right shows whether its value is above zero if it is digital, and the value itself if not. |
| `Ports.MessageTells` | src/events.cc:76-108 | So does the message of a port_set event, for the new value and for the old. |
| `Ports.ReplayedConnection` | web/coffee/devices_manager.js.coffee:27-35 | After a replay a device shows as connected exactly what the last notice about it says. |
| `Ports.NoticesTold` | src/events.cc:108-118 | The events tell the last notice of each device. |
| `Ports.ReplayConverges` | src/models/port.cc:40-53 | It also does when the snapshot was taken after the first events were received: replaying them all, the overlap included, shows the current values. |
| `Ports.SilentChanges` | src/commands/cmd_all_ports_state.cc:24-27 | With silent changes the browser is right about a port if and only if its last announced value has the projection of its value. |
| `Ports.SilentChangeHidden` | src/commands/cmd_all_ports_state.cc:24-27 | A concrete silent change after which it is not. |
| `Ports.ActivePorts.Set` | src/models/port.cc:17-33 | A call on a port found by its ids changes that port alone and posts the event the change calls for. |
| `Ports.DevicesManager.SetPorts` | web/coffee/devices_manager.js.coffee:22-24 | The loop sets the value of exactly the ports with the id. |
| `Ports.DevicesManager.Device` | web/coffee/devices_manager.js.coffee:38-40 | The first device with the id is found. |
| `EndToEnd.BrowserFollows` | src/events.cc:17-31 | Whatever the threads were doing, the messages a listener has sent bring the browser's snapshot to the ports' values after some number of the changes made, and after all of them once the pipeline is at rest. |
| `HexCoding.HexRoundTrip` | src/crypto/crypto.cc:27-60 | hex_decode after hex_encode, each with the length the other sets (3L+1 and L), gives back the exact bytes. |
| `HexCoding.DecodesPrefix` | src/crypto/crypto.cc:46-60 | Decoding through strtol reads back as many bytes of an encoding as it is asked for, whatever follows the encoding. |
| `HexCoding.HexEncode` | src/crypto/crypto.cc:27-43 | The buffer holds two lower-case digits and a space for each byte, then a NUL. |
| `HexCoding.HexDecode` | src/crypto/crypto.cc:46-60 | The buffer holds, for each third character, what strtol reads from there on, cut to a byte. |
| `DeviceWire.StreamSplits` | src/device_connection.cc:85-94 | However much of the byte stream has arrived, its complete lines are the first of the lines sent, and all of them once it has all arrived. |
| `DeviceWire.DeviceReceives` | src/device_connection.cc:49-62 | Decoding each line gives back the exact bytes of the first in-session messages, in order. |
| `DeviceWire.ServerReads` | src/device_connection.cc:155-158 | process_input gets a whole message if and only if two to four bytes follow its encoding (for an empty one, at most four); after a single newline its last byte is lost. |
| `DeviceWire.DeviceConnection.SendRaw` | src/device_connection.cc:64-72 | A message is written at once only if nothing is queued; after a failed write nothing more is written. |
| `DeviceWire.DeviceConnection.HandleWrite` | src/device_connection.cc:125-131 | A successful write takes its message off and begins the next; a failed one leaves the queue stalled. |
| `DeviceWire.DeviceConnection.ProcessInput` | src/device_connection.cc:136-170 | Before a session the text up to the NUL is dispatched, within one the decoded bytes. Whatever the request's handler sends, creates or closes, a failing one then ends the session and closes with a raw "400 Bad Request" and no event. |
| `DeviceWire.DeviceConnection.React` | src/device_connection.cc:40-47 | What a handler sends is queued in order, encoded from the moment it has created a session. |
| `DeviceWire.DeviceConnection.CreateSession` | src/device_connection.cc:176-201 | The session string still goes out raw, later messages encoded; an unknown device gets "406 Not Acceptable". |
| `DeviceWire.Drive` | src/device_connection.cc:40-131 | In every run: what is sent, encoded or not, and how many writes have succeeded is what the operations come to; at most one write is in flight, and what has been written is the stream of the first messages sent, in order, also after a failed write; nothing written is ever taken back. |
| `DeviceWire.Operate` | src/device_connection.cc:40-201 | One operation adds to the account of messages and writes exactly what it should. |
| `DeviceWire.SessionDelivered` | src/device_connection.cc:40-131 | Of any connection in any such state: the bytes that reached the device since the session began decode to the first messages sent in it, and to all of them when everything has been written. |
| `DeviceWire.DeviceConnection.Send` | src/device_connection.cc:40-47 | Within a session messages go out encoded, before it as they are. |
| `DeviceWire.DeviceConnection.SendCrypted` | src/device_connection.cc:49-62 | The encoded message is queued with its NUL. |
| `DeviceWire.DeviceConnection.Write` | src/device_connection.cc:85-94 | What is written is the head of the queue up to its first NUL, and a newline. |
| `DeviceWire.DeviceConnection.Close` | src/device_connection.cc:96-105 | Closing posts device_disconnected only within a session. |
| `DeviceSessions.SessionSends` | src/device_connection.cc:40-62 | From the creation of a session on, while no request fails, what is sent is the raw session string and then every message asked for, by handlers or otherwise, encoded, in order. |
| `DeviceSessions.DeviceHears` | src/device_connection.cc:40-131 | So from the bytes that have reached it since the session began the device reads, exactly and in order, the first of the messages the server's operations asked to be sent to it, and all of them once everything has arrived. |
| `DeviceSessions.PlainBeforeSession` | src/device_connection.cc:40-47 | Before a session is created everything goes out as it is. |
| `Reconnecting.OneOrTheOther` | web/lib/js/reconnecting-websocket.js:198-258 | Until the client is CLOSED it has exactly one of a live socket and a pending reconnect timer, and neither afterwards. |
| `Reconnecting.ReconnectingWebSocket.OnClose` | web/lib/js/reconnecting-websocket.js:233-258 | A closed socket leads to CLOSED after close(), otherwise to one scheduled attempt with the delay for this number of attempts; the loss is reported only if the connection had opened or was the first; timedOut is never set there. |
| `Reconnecting.ReconnectingWebSocket.OnConnectTimeout` | web/lib/js/reconnecting-websocket.js:210-217 | A connection timeout that onclose did not clear touches no other socket. |
| `Reconnecting.ReconnectingWebSocket.OnOpen` | web/lib/js/reconnecting-websocket.js:219-231 | A successful open resets the attempts, whatever its listeners do. |
| `Reconnecting.ReconnectingWebSocket.Close` | web/lib/js/reconnecting-websocket.js:301-310 | From the first close() on there will be no further socket, except one if the client was between two attempts. |
| `Reconnecting.CloseBetweenAttempts` | web/lib/js/reconnecting-websocket.js:301-310 | A run in which close() is followed by a new connection that opens. |
| `Reconnecting.DelaysInStreak` | web/lib/js/reconnecting-websocket.js:253-257 | With decay >= 1, delays within a streak of failures never fall and never exceed maxReconnectInterval. |
| `Reconnecting.NextDelay` | web/lib/js/reconnecting-websocket.js:253-257 | After a failed attempt the next one waits reconnectDecay times as long, up to maxReconnectInterval: with the first delay this gives every delay. |
| `Reconnecting.DelayAfterOpen` | web/lib/js/reconnecting-websocket.js:226 | The first delay after a successful open, or ever, is the base interval, capped. |
| `Reconnecting.Drive` | web/lib/js/reconnecting-websocket.js:198-317 | Every sequence of browser events, close() and refresh() calls, also from listeners, keeps all of this; the history, the attempts and the wish to close are what the steps come to; a lost connection is reported exactly once, before the first attempt to open another, and nothing follows the end. |
| `Reconnecting.Take` | web/lib/js/reconnecting-websocket.js:198-317 | One event or call changes history, attempts and the live socket exactly as it should. |
| `Reconnecting.ReconnectingWebSocket.Open` | web/lib/js/reconnecting-websocket.js:198-217 | open makes one socket, the live one. |
| `Reconnecting.ReconnectingWebSocket.OnReconnectTimer` | web/lib/js/reconnecting-websocket.js:254-257 | The timer counts the attempt and opens the next socket. |
| `Reconnecting.ReconnectingWebSocket.Dispatch` | web/lib/js/reconnecting-websocket.js:167-179 | Listeners that close or refresh change no more than the wish to close and what the live socket was asked. |
| `SqlBuilder.InsertBinds` | include/data_mapper.h:478-530 | The whole insert, its lists cut out of the text and read under positional binding, assigns exactly the persisted columns, each its own field's value under the cast of its own type, with as many parameters as columns. |
| `SqlBuilder.InsertCut` | include/data_mapper.h:523-526 | The column list and the value list can be cut out of the statement again. |
| `SqlBuilder.UpdateCut` | include/data_mapper.h:623-624 | The settings and the id's placeholder can be cut out of the statement again. |
| `SqlBuilder.TextsJoin` | include/data_mapper.h:482-487 | For plain names, testing the text built so far for emptiness puts separators exactly between the items. |
| `SqlBuilder.UpdateBinds` | include/data_mapper.h:570-626 | The whole update does the same, and its last placeholder binds the id. |
| `SqlBuilder.SplitJoin` | include/data_mapper.h:482-486 | The comma-separated lists read back as the items put in. |
| `SqlBuilder.NumberRead` | include/data_mapper.h:487 | Placeholder numbers in decimal read back as the position they were made from. |
| `SqlBuilder.Model.BuildInsert` | include/data_mapper.h:478-522 | For any names the loop builds those texts and fills each parameter slot, or gives up at an unsupported type. |
| `SqlBuilder.Model.BuildSettings` | include/data_mapper.h:570-612 | The loop of update does the same, leaving the last slot for the id. |
| `SqlBuilder.Model.Create` | include/data_mapper.h:458-546 | create sends that request unless a callback or type forbids it, and takes over the id the database returns. |
| `SqlBuilder.Model.Update` | include/data_mapper.h:548-642 | update sends its request on the same conditions. |
| `SqlBuilder.Model.CountPersisted` | include/data_mapper.h:466-472 | The number of slots is the number of persisted fields. |
| `SqlBuilder.PersistedExact` | include/data_mapper.h:478-481 | The persisted fields are exactly those marked to_db, each once, in their order. |
| `SqlBuilder.SupportedExact` | include/data_mapper.h:488-516 | A statement is built if and only if every such field is a string, a text or an integer. |
| `CallbackPlans.Determined` | web/lib/js/jquery-2.1.3.js:3086-3217 | Two runs of the same lists by the same program and scripts are the same, as far as both have come. |
| `CallbackPlans.OneCompleteRun` | web/lib/js/jquery-2.1.3.js:3086-3217 | So there is exactly one complete run. |
| `CallbackPlans.MadeInOrder` | web/lib/js/jquery-2.1.3.js:3113-3217 | The program's calls stand in the log, in order. |
| `CallbackPlans.OnlyTheProgram` | web/lib/js/jquery-2.1.3.js:3113-3217 | Calls of a kind that no script makes are the program's own, and all of them. |
| `CallbackPlans.ScriptsInOrder` | web/lib/js/jquery-2.1.3.js:3093-3098 | The invocations of users' functions take the scripts one after the other. |
| `CallbackPlans.ScriptFollowed` | web/lib/js/jquery-2.1.3.js:3094 | Whatever happens in between, an invocation makes exactly the calls of its script, in order, and returns as the script says. |

## Left out

- Positional.Run: covers a seed without a post-finder, as in the post-finder path setMatcher re-enters Sizzle; seedless matching and the reintegration in superMatcher are not modelled.
- MatcherEngine.Engine.Select: covers selectors without positional filters; nested selectors (:not, :has) with their fractional dirruns are not modelled, and simple filters are opaque tests on nodes.
- MatcherEngine.Engine.Compile: compiles anew each time; the compiler cache is the bounded cache of BoundedCaches.
- DocumentOrder.Sorter.UniqueSort: takes from the host's sort that it leaves a permutation whose neighbours it has compared and not left the wrong way round; results is returned, not changed in place.
- DocumentOrder.SiblingCheck: leaves out sourceIndex, which only old Internet Explorer has; compareDocumentPosition replaces the comparator where the host has it.
- NthChild.ChildFilter.Test: takes an+b as parsed; node names are given in lower case, and arithmetic is on unbounded integers and reals in place of doubles.
- Tokenizer.Sizzle.Tokenize: takes regular expressions and preFilter functions as arbitrary functions that return the length of a matched prefix.
- Tokenizer.Sizzle.Select: takes from the host whether elements can be got by ID in this context, which texts need their context, and which tokens yield a seed; early returns without results are not modelled.
- The document is numbered with parents before children, as any finite forest can be; it does not change during a run.
- CallbackRuntime.Runtime.Fire: handlers are finite scripts of calls, one script for each invocation to come, and do nothing after the last; a handler that throws is not modelled.
- CallbackLaws.NoTurnSkippedOrRepeated: speaks of firings without empty, disable, stopOnFalse and lock without memory, since these drop the rest of a firing; OptionLaws and EntryLaws say what follows them.
- Deferreds.SettlesOnce: does not cover then, pipe and always, which build further Deferreds from these calls, nor remove and empty, which a Deferred does not expose.
- Whens.When.constructor: leaves out progress notifications and contexts, and arguments are integers.
- FxQueue.Element.Dequeue: covers the fx type; a dequeue while an entry is running counts as its next, whoever calls it, since the code does not tell them apart; hooks.stop and clearQueue are left out.
- EventPipeline.PipelineSafe: treats the unlocked push_back and the unlocked write of run as atomic steps, and has one io_service thread (EVENT_HANDLER_THREADS is 1); sending may not fail, and the lifetime of SSEContext is not modelled.
- Ports.PrefixReplay: considers the ports of devices that neither connect nor disconnect meanwhile, since connecting makes new port states; others may. Ports.SilentChanges says what aps updates do.
- Device connections and the JSON text itself: messages are values, and a command to a device is the pair of port and value.
- DeviceWire.Drive: leaves out sockets, the lifetime of buffers handed to asio, reading after an error, the split of input over several reads and the 1024-byte read buffer when it is full to its end.
- DeviceWire.DeviceConnection.CreateSession: takes the database's answer and the session string as parameters; encryption is switched off in the code and left out.
- DeviceWire.DeviceConnection.ProcessInput: a request that throws outside a session is caught nowhere, and what follows is not modelled.
- HexCoding.HexDecode: takes the bytes behind the input as zero, as the read buffer is cleared; lengths are unbounded, and failing allocations are left out.
- Reconnecting.DelaysInStreak: computes with reals, so that rounding and overflow of Math.pow are left out; open() called from outside and send are not modelled.
- SqlBuilder.InsertBinds: speaks of plain names (letters, digits, underscores) and at least one persisted field; an integer column's parameter is its raw host-order bytes, about whose reading by the server nothing is claimed, so the claim about values is for string and text columns.
- SqlBuilder.Model.Create: Postgres, padding of char(255), NULs in values, save, find and loading are not modelled.
- jQuery's DOM manipulation, CSS, animation and ajax, V8 templates, the web server, SSDP, users and pages: outside the protocols proved here.
