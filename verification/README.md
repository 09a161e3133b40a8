# Verified models of libferris

libferris presents everything as a virtual file system of contexts. This project models six parts of it in
Dafny and proves what they keep over whole inputs and whole runs.

* **XML message framing** (`XmlFraming`, `XmlListeners`, `XmlDocuments`): cutting a byte stream that arrives in
  arbitrary chunks into XML messages with a one-character look-back and a bracket counter.
* **The object cache** (`ObjectCache`, `CacheCalls`, `CacheObjects`): a map of reference-counted objects beside a
  queue of those that only the cache still refers to. The first module is a state machine over client calls, the
  second says what each call does, and the third has the objects and methods, each proved to be one step of it.
* **Set views and sorted views** (`OrderedMerge`, `SetViews`, `ManyBaseViews`, `ViewEvents`, `ViewChildren`,
  `SortedViews`, `SortedListing`, `SortedContexts`): union, difference, intersection and symmetric difference of
  directories, set up by folding merges and then kept up by events, and the view that keeps a second, sorted index.
* **Inherited attributes** (`InheritedAttributes`): attributes looked up along the parent chain.
* **The free list** (`FreeList`, `FreeListPass`, `FreeListClients`, `FreeListOffers`, `FreeListRuns`, `PinnedPass`,
  `AutomaticCleaning`, `SafeReleases`, `UnsafeReleases`, `CacheManagers`): contexts that keep each other alive through
  reference counts and pins, and the clean-up pass that reclaims the idle ones. The first five modules say what the
  operations do to the tree, what they do to the list and to the handles of clients, and what holds over whole runs.
  `PinnedPass`, `AutomaticCleaning`, `SafeReleases` and `UnsafeReleases` have the passes that a release itself starts,
  and exactly when such a release is safe. `CacheManagers` has the objects, with the nested calls the code makes while
  a pass is running.
* **The mode-string compiler** (`ChmodOperations`, `ChmodParser`, `ChmodMeaning`, `ChmodLetters`, `ChmodIdempotence`,
  `ChmodCopies`) and the **attribute cache** (`AttributeCache`), whose cached values share one time stamp.

Code that changes fields is modelled by classes whose methods are proved against functions on values; the lemmas
about whole inputs and runs are about those functions.

Where the code differs from what its comments or names say, the model follows the code:

* `<!` is counted as an opening bracket that nothing closes, so a document with a comment or a doctype is kept back,
  with everything behind it, unless strays happen to make up for it.
* `/>` and `?>` close a bracket wherever they stand, so a text such as the one of `<a>/></a>` ends its document early.
* A message the parser rejects drops the rest of its chunk, and only then does it matter how a stream is cut.
  Listeners notice unless nothing behind it could be taken up again.
* `allBaseContextsUseSameSorting` promises the opposite of its answer, and its answer is always false.
* A reader that makes a child of an idle context leaves that context pinned above, off the list and idle.
* With automatic clean-up on, a release may have the very context it releases reclaimed: by its own pass if its
  number of children is not zero, by its parent's if that becomes idle with it, and only if nothing at or below it
  is beyond reclaiming.
* A release clears its pin only after its parent is released. If the parent's release starts a pass that takes a
  child of the released context, the parent is released for the same pin once more. `SafeReleases.Safe`
  says exactly when that can happen while nothing throws.
* A loop connects a view to all its bases, but a guard lets only the first connection through.
* An intersection takes its children out of bases that are views whether it is a cannibal or not.
* A read of a sorted view marks its children and removes none.
* In an `=` clause the last letter wins; copying a class turns one write bit into a read bit; a second operator
  is refused; the empty mode string clears all permissions.
* Inserting a new name into the attribute cache moves the stamp for the names that were there.

## Model

| member | source | states |
|---|---|---|
| XmlFraming.XMLMsgStreamCollector.GetNextXMLMsg | Ferris/AsyncIO.cpp:223-261 | One call takes exactly the first complete message off the stream and returns it trimmed, leaving the rest unread; if there is none it moves everything it read into the overflow and returns the empty string. |
| XmlFraming.XMLMsgStreamCollector.IoCb | Ferris/AsyncIO.cpp:264-317 | One chunk changes the collector as `Feed` says: overflow and chunk are framed together, each message is parsed and announced in order, and a rejected message ends the chunk at once. |
| XmlFraming.TrimPrefix | Ferris/Trimming.hh:121-147 | The trimmer with the three codes the framer pushes removes leading newlines, blanks and tabs, but never the last character. |
| XmlFraming.TrimMeans | Ferris/Trimming.hh:121-147 | What goes is a run of newlines, spaces and tabs at the front, and it goes as far as there is one, short of the last character. |
| XmlFraming.ScanStep | Ferris/AsyncIO.cpp:232-258 | One character of the loop either ends the first message exactly there or leaves the scan without a message and with the loop variables of the next turn. |
| XmlFraming.FramesConcat | Ferris/AsyncIO.cpp:223-261 | The untrimmed messages and what is left, put together, are the input, for every string. |
| XmlFraming.FramesComplete | Ferris/AsyncIO.cpp:223-261 | Every message is complete at its last character and not before, and what is left contains no complete message. |
| XmlFraming.FramesAppend | Ferris/AsyncIO.cpp:274-281 | Rescanning the overflow in front of the next chunk gives the messages of one pass over both. |
| XmlFraming.FeedTwo | Ferris/AsyncIO.cpp:264-317 | Two chunks whose messages are accepted have the effect of one chunk holding both. |
| XmlFraming.ChunkIndependence | Ferris/AsyncIO.cpp:264-317 | For every byte string and every way of cutting it, if the parser accepts the messages the collector ends in exactly the state a single chunk gives: announcements, fields and overflow. |
| XmlFraming.RejectionDropsChunk | Ferris/AsyncIO.cpp:300-314 | A rejected message silently takes everything behind it in the same chunk with it: the state is the one a chunk that ends with the message leaves. |
| XmlFraming.CutIndependentIff | Ferris/AsyncIO.cpp:264-317 | For a settled collector and any string, every way of cutting it ends in the state a single chunk gives if and only if the parser accepts every message of the string. |
| XmlFraming.GoodAfterRejected | Ferris/AsyncIO.cpp:300-314 | For any rejected message and any accepted one behind it, listeners hear the accepted one when the stream is cut between them and do not when both come in one chunk. |
| XmlListeners.CutUnheardIff | Ferris/AsyncIO.cpp:264-317 | For a settled collector and any string, what listeners hear and what is kept for the next chunk are the same for every way of cutting it if and only if, behind its first rejected message, reading taken up at any character comes to a rejected message first. |
| XmlListeners.NothingHeard | Ferris/AsyncIO.cpp:300-314 | Of such a rest nothing is heard and nothing is kept, in whatever chunks it comes. |
| XmlListeners.CutIsHeard | Ferris/AsyncIO.cpp:300-314 | Wherever behind a rejected message something else comes first, a cut right there is heard or leaves an overflow that the single chunk does not. |
| XmlListeners.HopelessEnds | Ferris/AsyncIO.cpp:242-250 | Nothing but a rest that ends with `>` is of that kind, and only for a parser that rejects a bare `>`. |
| XmlDocuments.BodyScan | Ferris/AsyncIO.cpp:232-258 | Scanning any element, empty element, instruction or markup of any nesting leaves the bracket count where it was, plus one for each mark (a `<!`, or a tag opened inside a comment, CDATA section, document type or instruction) and minus one for each stray (a `/>` or `?>` in a text, attribute part, instruction or markup, or a `</` where tags are no tags), and completes a message before its last `>` exactly when at some possible end the open elements and marks so far are as many as the strays so far. |
| XmlDocuments.NodeScan | Ferris/AsyncIO.cpp:232-258 | The same for any node as a whole, its last `>` included; an instruction ends nothing there. |
| XmlDocuments.DocumentFrame | Ferris/AsyncIO.cpp:223-261 | A printed XML 1.0 document (sections 2.4 to 2.8 and 3.1) is framed as one message exactly when its marks and its strays cancel out over the whole document and at no earlier possible end, together with the elements open there, do so; without marks exactly when it has no stray, without strays exactly when it has no mark, and with one no end is found in it. |
| XmlDocuments.FramesOfDocuments | Ferris/AsyncIO.cpp:223-261 | Any sequence of documents that are framed whole, in front of any further input, comes back document by document, and the further input is framed as if it stood alone. |
| XmlDocuments.FramingInvertsPrinting | Ferris/AsyncIO.cpp:223-261 | For every sequence of documents framing inverts printing if and only if in each of them marks and strays cancel out at its end and nowhere before it; where none has both, if and only if none has either. |
| XmlDocuments.StrayEndsDocument | Ferris/AsyncIO.cpp:242-250 | `<a>/></a>` is such a document without marks that is not framed whole. |
| XmlDocuments.MarkAndStrayCancel | Ferris/AsyncIO.cpp:236-250 | `<a><!x>/></a>` has one of each and is framed whole. |
| XmlDocuments.CommentedDocumentIsKeptBack | Ferris/AsyncIO.cpp:236-240 | Among documents without strays, once one with a mark comes, it and all behind it, however many, stay in the overflow and no message is found. |
| XmlDocuments.StreamedDocumentsArrive | Ferris/AsyncIO.cpp:264-317 | Documents that are framed whole, sent as a stream cut anywhere, reach the listeners one by one, whole and in order, and nothing is left over. |
| XmlDocuments.TrimStopsAtBracket | Ferris/Trimming.hh:121-147 | Trimming takes exactly the blanks in front of the first bracket. |
| ObjectCache.CountsAndQueueAgree | Ferris/Cache.hh:182-299 | After every run of a client that respects the rules each reference count is its external handles plus its map entries, and the collectable queue holds, each once, exactly the objects whose only reference is the cache's. |
| ObjectCache.LookupRefinesMap | Ferris/Cache.hh:248-279 | A lookup answers with the last value put under the key or with nothing, and never with nothing while a client holds that value. |
| ObjectCache.EvictionIsLeastRecent | Ferris/Cache.hh:196-231 | Whatever a collection evicts had its last external handle released before anything it leaves in the queue. |
| ObjectCache.EvictedAfterSync | Ferris/Cache.hh:133-137 | Every evicted object was synced after its last external use, with nothing happening to it in between. |
| ObjectCache.PutBoundsQueue | Ferris/Cache.hh:281-290 | After a put the queue is no longer than a non-negative limit; a negative limit is no limit, because it is compared as an unsigned number. |
| ObjectCache.TimerEmptiesQueue | Ferris/Cache.hh:150-157 | The timer empties the queue and leaves in the map exactly the objects with external handles. |
| ObjectCache.StepKeeps | Ferris/Cache.hh:182-299 | Each single call keeps counts, queue, map refinement, queue order and the sync rule together. |
| ObjectCache.QueueOfMeaning | Ferris/Cache.hh:133-137 | The reference queue computed from the history holds exactly the objects that were synced last of all, in that order. |
| ObjectCache.CollectSomeKeeps | Ferris/Cache.hh:196-231 | Collecting n objects keeps the invariant and takes exactly the first n of the queue out of queue and map. |
| CacheCalls.FindHits | Ferris/Cache.hh:248-279 | A lookup that hits hands out one counted handle on the object, takes it off the queue, keeps the rest of the queue in order and changes nobody else's count. |
| CacheCalls.DropIs | Ferris/Cache.hh:86-137 | Dropping a handle is one handle less; with the last one a cached object joins the queue at the back and is synced, and any other is gone. |
| CacheCalls.PutIs | Ferris/Cache.hh:281-290 | After a put the key answers the value; the oldest of the queue, as many as it is over its limit, go with their entries, and no other entry and no handle changes. |
| CacheCalls.LimitHolds | Ferris/Cache.hh:281-290 | A limit that is set touches nothing by itself, and from then on a put leaves the queue no longer than it, if it is not negative. |
| CacheCalls.PutNoCollectIs | Ferris/Cache.hh:292-299 | The same without a collection. |
| CacheCalls.UsedIsSpared | Ferris/Cache.hh:196-216 | An object at the front of the queue that is in use again is only taken off it. |
| CacheCalls.RunAccounts | Ferris/Cache.hh:182-299 | Over every lawful run the handles on every object are exactly what the calls come to: creations, copies and the lookups that answered it, less the drops. |
| CacheCalls.AnsweredWhileHeld | Ferris/Cache.hh:248-279 | As long as the calls have left somebody a handle on the last value put under a key, the key answers it. |
| CacheObjects.CacheHandlable.Release | Ferris/Cache.hh:86-94 | The count drops by one, and the signal reaches the cache exactly when one reference is left. |
| CacheObjects.Cache.OnGenericCloseSignal | Ferris/Cache.hh:133-137 | The object is queued at the back and synced. |
| CacheObjects.Cache.Get | Ferris/Cache.hh:252-279 | The object under the key, or null; a hit takes it off the collectable queue and is one handle more. |
| CacheObjects.Cache.EraseEntries | Ferris/Cache.hh:218-230 | Every map entry that holds the object goes, each giving up its handle, and nothing else changes. |
| CacheObjects.Cache.CollectOne | Ferris/Cache.hh:200-231 | One turn of the collecting loop: the front of the queue leaves it, and unless it is in use again leaves the map. |
| CacheObjects.Cache.MaybeCollect | Ferris/Cache.hh:182-236 | The whole loop does what the state machine's collection does, with the early exits and the count as computed. |
| CacheObjects.Cache.TimerF | Ferris/Cache.hh:150-157 | The timer collects as many as are queued. |
| CacheObjects.Cache.Put | Ferris/Cache.hh:281-290 | A null value changes nothing; any other is bound after a collection. |
| CacheObjects.Cache.PutNoCollect | Ferris/Cache.hh:292-299 | The same without the collection. |
| CacheObjects.Cache.Perform | Ferris/Cache.hh:182-299 | Every call that the client rules allow takes the heap objects from one valid state to another exactly as the state machine does. |
| OrderedMerge.MergeNames | Ferris/Context.cpp:2927-2930 | A merge of name-ordered ranges holds exactly the names its set operation asks for, for all four operations. |
| OrderedMerge.MergeMeans | Ferris/Context.cpp:3016-3060 | In so many words: in either range, in the first alone, in both, in one of the two. |
| OrderedMerge.LessMeans | Ferris/Ferris.cpp:2455-2470 | Names are ordered by the first character in which they differ, and a proper prefix comes first. |
| OrderedMerge.MergeOrdered | Ferris/Context.cpp:2927-2930 | It is in name order again, so it can be merged further. |
| OrderedMerge.MergeSupply | Ferris/Context.cpp:2927-2930 | On equal names the left range supplies the child. |
| OrderedMerge.MergeRanges | Ferris/Context.cpp:2927-2930 | The two-cursor loop computes that merge. |
| OrderedMerge.DifferenceNeedsOrder | Ferris/Context.cpp:3045-3056 | A range without equal names may stand first in a difference with every ordered range exactly when it is ordered itself: why the main collections are kept in name order. |
| SetViews.ByNameOrdered | Ferris/Context.cpp:3035-3042 | The name-keyed temporary holds the same children in name order. |
| SetViews.FoldNames | Ferris/Context.cpp:3022-3060 | Folding the merges over any number of bases computes the n-ary operation: union, first minus all others, intersection, and for the symmetric difference the names an odd number of bases hold. |
| SetViews.HoldsMeans | Ferris/Context.cpp:3016-3060 | That is: in some base, in the first and no other, in every base, in an odd number of bases. |
| SetViews.DifferentSortingMeans | Ferris/Context.cpp:2727-2743 | The test on the sorting is true exactly when not all bases are sorted like the first. |
| SetViews.FoldSupply | Ferris/Context.cpp:2919-2940 | On equal names the earliest base supplies the child; only in a symmetric difference it is the latest. |
| ManyBaseViews.AllBaseContextsUseSameSorting | Ferris/Context.cpp:2727-2743 | Returns true exactly when some base is sorted unlike the first. |
| ManyBaseViews.SortingNeverDiffers | Ferris/Ferris.cpp:2455-2470 | That is never: the collections compared are the main ones, all in name order. |
| ManyBaseViews.FoldBases | Ferris/Context.cpp:3016-3060 | The loop with its two swapped buffers computes the fold. |
| ManyBaseViews.ManyBaseView.SetupFolded | Ferris/Context.cpp:3259-3329 | Setup of a difference or a symmetric difference shows exactly its n-ary operation of the bases and connects to the first base; a second setup does nothing. |
| ManyBaseViews.ManyBaseView.SetupUnion | Ferris/Context.cpp:2812-2967 | Setup of a union shows exactly the names of all bases, each child from the earliest base that has it, on every one of its paths. |
| ManyBaseViews.ManyBaseView.InsertDifferent | Ferris/Context.cpp:2950-2963 | The path for differently sorted bases, which is never taken, would show the same union child by child. |
| ManyBaseViews.ManyBaseView.UnionOfPointers | Ferris/Context.cpp:2859-2895 | The raw-pointer loop collects exactly the distinct children of all bases. |
| ManyBaseViews.PointerNames | Ferris/Context.cpp:2857-2946 | The fast path has exactly the names of the name-ordered merge. |
| ManyBaseViews.EarliestPointer | Ferris/Context.cpp:2857-2909 | Over filters of one directory it also supplies the same children. |
| ManyBaseViews.ManyBaseView.SetupIntersection | Ferris/Context.cpp:3126-3213 | Setup of an intersection shows exactly the names all bases hold, and takes them out of every base that is itself such a view, cannibal or not; measured against what the bases hold afterwards it is right if and only if it shows nothing or no base is such a view. |
| ManyBaseViews.ManyBaseView.UpdateViewForCannibalizm | Ferris/Context.cpp:2754-2771 | Every base that is itself such a view loses exactly the children shown, by name. |
| ManyBaseViews.IntersectionPartitions | Ferris/Context.cpp:3187-3212 | When all bases are such views, each base before is the disjoint union of that base after and the intersection, and the bases after have an empty intersection. |
| ManyBaseViews.ManyBaseView.BaseSetup | Ferris/Context.cpp:2645-2655 | The loop over all bases connects the view to the first base only. |
| ManyBaseViews.ManyBaseView.SetupEventConnections | Ferris/ChainedViewContext.cpp:239-259 | A base is connected only if none is connected yet. |
| ManyBaseViews.ManyBaseView.ShouldInsertContext | Ferris/Context.cpp:3237-3257 | Each operation's insert test, as one rule over the names the bases hold. |
| ManyBaseViews.ManyBaseView.OnAppeared | Ferris/Context.cpp:2673-2705 | The two handlers for a child that appears put that very child under its name exactly when the rule allows, and disturb no other. |
| ManyBaseViews.ManyBaseView.OnDeleted | Ferris/Context.cpp:2663-2671 | The handler removes that name and no other. |
| ManyBaseViews.ManyBaseView.CreateIn | Ferris/ChainedViewContext.cpp:239-259 | A child created in the first base is one announcement for the view, which shows that child if the name is new there; one created in any other base never reaches it. |
| ManyBaseViews.ManyBaseView.DeleteIn | Ferris/ChainedViewContext.cpp:239-259 | The same for deletion. |
| ManyBaseViews.SetupIsBatch | Ferris/Context.cpp:3007-3068 | What setup computes is what the event rules are measured against. |
| ViewChildren.ShownWasAnnounced | Ferris/Context.cpp:2673-2705 | Every child shown after a run was shown at its start and never taken away, or is the very one the first base announced in the run and did not take away later. |
| ViewChildren.NamesFollow | Ferris/Context.cpp:2663-2705 | The names shown after a run are those of its events alone. |
| ViewEvents.StepAgrees | Ferris/Context.cpp:2663-2705 | One event keeps a view equal to what setup would show if and only if it is harmless, a test on the operation, the event and who else holds the name. |
| ViewEvents.RunAgreesOnIff | Ferris/Context.cpp:2663-2705 | Whatever a difference or intersection view shows at first, after any run of events it is right about a name if and only if it was before, or the name was deleted in the run, or the run touched it and it was missing or the other bases let it through. |
| ViewEvents.IncrementalAgrees | Ferris/Context.cpp:2988-3005 | So it equals recomputation from scratch after the run if and only if every name it was wrong about is repaired in one of these ways; a view that starts right stays right over every run. |
| ViewEvents.UnionShows | Ferris/Context.cpp:2795-2803 | A union view misses exactly the names whose last event was a deletion and that another base still holds. |
| ViewEvents.UnionAgreesIff | Ferris/Context.cpp:2795-2803 | So it equals recomputation if and only if there is no such name, in particular over every run without deletions. |
| ViewEvents.OneIsOddIff | Ferris/Context.cpp:3246-3256 | The rule of exactly one holder and the rule of an odd number of holders agree on all contents if and only if there are at most two bases. |
| ViewEvents.SymmetricDifferenceGoesStale | Ferris/Context.cpp:3237-3257 | Even with two bases a name that both come to hold stays shown. |
| ViewEvents.SymmetricShows | Ferris/Context.cpp:3237-3257 | After any run of events a symmetric difference is right about a name if and only if nobody else holds it, or it was last deleted and an even number of others hold it, or it is back after a deletion and an odd number hold it, or it was neither created nor deleted. |
| ViewEvents.SymmetricAgreesIff | Ferris/Context.cpp:3237-3257 | So it equals recomputation after the run if and only if that holds of every name of the run. |
| FreeList.AcquireKeeps | Ferris/Ferris.cpp:5598-5682 | Acquiring keeps every count, pin and flag in the tree right, changes nothing but the context and its ancestors, and takes the context off the list. |
| FreeList.ReleaseKeeps | Ferris/Ferris.cpp:5685-5770 | Giving up a reference that is neither the owner's, a child's nor a pin keeps them right too, up the whole chain of ancestors. |
| FreeList.ReleaseLater | Ferris/Ferris.cpp:5742-5753 | Clearing the pin before or after the parent is released makes no difference. |
| FreeList.DiscoverKeepsIff | Ferris/Ferris.cpp:2340-2376 | A new child starts idle and listed; its handle on its parent is an acquire before the parent has an entry for it, and that keeps counts, pins and flags right if and only if the parent is in use or has no parent itself. |
| FreeList.ReclaimIs | Ferris/Ferris.cpp:3556-3712 | Reclaiming a childless context leaves its parent with one child and one reference fewer; a parent that had only its minimum has its minimum still and is offered to the list. |
| FreeListOffers.ReleaseOffers | Ferris/Ferris.cpp:10336-10474 | After a release exactly those are listed that were, and those that became idle and have a parent or are the childless root of a metadata tree. |
| FreeListOffers.AcquireUnlists | Ferris/Ferris.cpp:5598-5682 | After an acquire exactly those are listed that were and are still idle. |
| FreeListOffers.ReclaimOffers | Ferris/Ferris.cpp:3556-3712 | After a reclaim the parent is listed exactly if it was, or has only its minimum and is of the kind the list takes; nobody else comes or goes. |
| FreeListOffers.DiscoverIs | Ferris/Ferris.cpp:2340-2376 | A child that is found has one reference, no children, its own kind and a place on the list; its parent has a child and a reference more. |
| FreeListPass.TurnKeeps | Ferris/CacheManager.cpp:841-1213 | One turn of the clean-up loop keeps the tree right and every set flag in exactly one of worklist, rejects and list, looks at one context alone, and takes it away only if it was idle and childless. |
| FreeListPass.CleanUpAccounts | Ferris/CacheManager.cpp:748-1229 | A whole call returns exactly how many contexts it took away, never more than a positive quota; each was listed and idle and all its children went with it. |
| FreeListPass.CleanUpFates | Ferris/CacheManager.cpp:748-1229 | Every context on the starting list is taken away, or listed with its flag set, or off the list with its flag clear, and the last only if it cannot be reclaimed. |
| FreeListPass.LeafGoes | Ferris/CacheManager.cpp:819-1195 | Without quota and failures every listed leaf goes, whatever the order of the set. |
| FreeListPass.RefusesToClean | Ferris/CacheManager.cpp:748-835 | Inside a resolve or another pass, or while the list is not longer than a limit that counts, a call returns 0 and changes nothing. |
| FreeListPass.CleansIff | Ferris/CacheManager.cpp:748-835 | Otherwise, without quota and failures, a listed idle leaf that can be reclaimed is gone after the call if and only if (the call is forced, or there is no list limit, or the list is longer) and (no number of contexts may stay, or the list is longer). |
| FreeListPass.QuotaIsUsed | Ferris/CacheManager.cpp:819-860 | A call that frees fewer than its quota does all that it would do without one. |
| FreeListPass.CleanUpDrops | Ferris/CacheManager.cpp:959-1103 | Of the childless listed contexts that cannot be reclaimed, roots of a metadata tree are freed and all others are dropped from the list with the flag cleared. |
| FreeListPass.InUseStays | Ferris/CacheManager.cpp:1113-1140 | A listed context in use, or with children, goes back on the list. |
| FreeListPass.CleanUpLowers | Ferris/CacheManager.cpp:819-1229 | A forced call takes the lowest level of a listed subtree away and leaves the rest of it listed. |
| FreeListPass.SubtreeEmpties | Ferris/CacheManager.cpp:748-1229 | A fully listed, reclaimable subtree of n levels is gone after n forced calls, in whatever order each hands its contexts out. |
| FreeListPass.MayBeTakenIff | Ferris/CacheManager.cpp:748-1229 | A call that does not decline may take a given context, in some order of the list, if and only if its whole subtree is listed, can be reclaimed and is no larger than the quota. |
| FreeListClients.AcquireClients | Ferris/Ferris.cpp:5598-5682 | Acquiring is one client handle more on that context and none on any other, however many ancestors get pinned. |
| FreeListClients.ReleaseClients | Ferris/Ferris.cpp:5685-5770 | Releasing is one fewer, likewise. |
| FreeListClients.CleanUpClients | Ferris/CacheManager.cpp:748-1229 | A clean-up leaves the client handles on every context that stays as they were. |
| FreeListRuns.StepKeeps | Ferris/CacheManager.cpp:748-1229 | Each acquire, release (with all the passes it starts), discovery, clean-up and recount of children keeps every reference accounted for (one for the owner, one for each child, one for each pin and one for each client handle) and the list complete: nobody on it is in use, and nobody idle that could be reclaimed is missing from it. |
| FreeListRuns.EveryRunAccounts | Ferris/CacheManager.cpp:748-1229 | Over every interleaving of them, with automatic clean-up or without, where each automatic release is secure, or safe with nothing thrown, the live contexts stay closed under parent, flags and list agree, every count stays accounted for and the list stays complete. |
| FreeListRuns.StartAccounts | Ferris/Ferris.cpp:2295-2336 | A root fresh from its constructor is such a state. |
| FreeListClients.AncestorsAreBusy | Ferris/Ferris.cpp:5641-5667 | A context in use keeps all its ancestors above their minimum and off the list. |
| FreeListRuns.UsedIsKept | Ferris/CacheManager.cpp:1134-1151 | No step, automatic passes included, takes away a context that a client holds, or any ancestor of it. |
| FreeListClients.LoopForgets | Ferris/CacheManager.cpp:819-1215 | A pass forgets nobody: whoever is idle, reclaimable and off the list after it was so before. |
| PinnedPass.LoopReleased | Ferris/Ferris.cpp:5734-5770 | Releasing a context that is held and running a pass, in any order of its list, may change places. |
| PinnedPass.CleanUpPinned | Ferris/CacheManager.cpp:748-1229 | A clean-up in a world where a context and others below it still pin their parents does what it does without those pins, and releases the parent of the context as well exactly when it takes a child of that context. |
| PinnedPass.OwnPassIs | Ferris/Ferris.cpp:5734-5770 | So the pass that a release starts while its own pin is still set is the pass with the pin written off, plus the release of the parent exactly when a child of the released context was taken. |
| AutomaticCleaning.UnreclaimableKeeps | Ferris/Ferris.cpp:10434-10474 | With automatic clean-up, a release of a context with something at or below it that cannot be reclaimed returns, whatever limits, quota and order of the list, through all the releases and passes it starts on the way up. |
| SafeReleases.TrustedReturns | Ferris/Ferris.cpp:5734-5770 | A release that is secure (where a pass may start at a context or above it, something at or below the context, or below each of its children, cannot be reclaimed) returns whatever the limits, the orders and what throws; one that is safe returns where no limit comes in the way and nothing throws. Either loses one handle and contexts that nobody held. |
| SafeReleases.SecureIsSafe | Ferris/Ferris.cpp:5734-5770 | Whatever is secure is safe. |
| SafeReleases.SecureIsRight | Ferris/Ferris.cpp:5685-5770 | Every secure release keeps all references accounted for, the list complete and whoever is held in place, whatever throws and whatever the limits. |
| SafeReleases.SafeIsRight | Ferris/Ferris.cpp:5685-5770 | So does every safe one where nothing throws and no limit comes in the way. |
| UnsafeReleases.WholeIsLost | Ferris/Ferris.cpp:10434-10474 | If the number of children of the released context is not zero and all that is at or below it can be reclaimed, its own pass may take it away while its Release is still running. |
| UnsafeReleases.ReleaseReturnsIff | Ferris/Ferris.cpp:10434-10442 | Where a release makes a context idle whose number of children is not zero, and its pass neither declines nor runs out of quota, it returns for every order of the list in which nothing throws if and only if something at or below the context cannot be reclaimed. |
| UnsafeReleases.LeafReturnsIff | Ferris/Ferris.cpp:10434-10442 | A context whose number of children is zero starts no pass: its release returns for every such order if and only if it leaves its parent in use, or something at or below the context cannot be reclaimed. |
| UnsafeReleases.ReleaseIsRightIff | Ferris/Ferris.cpp:5685-5770 | Where no limit comes in the way and nothing throws, a release with automatic clean-up returns with every reference accounted for, for every order of the list, if and only if it is safe: a context that a pass at or above it may take is held by something below, and no child of it or of a context above that the release reaches is loose and deep enough to outlast the passes up to and with its own parent's while another may follow, unless the first pass cannot but take a child of the context that starts it. |
| UnsafeReleases.EndangeredRelease | Ferris/Ferris.cpp:5734-5770 | Where a child is so placed, orders exist, with nothing thrown in them, that leave it to a later pass and end the release with a context or a reference lost. |
| FreeListPass.MayKeep | Ferris/CacheManager.cpp:819-1195 | A pass in which nothing throws may take any closed part of the list that can be reclaimed and keep any set of contexts that have children. |
| UnsafeReleases.ReferenceGivenTwice | Ferris/Ferris.cpp:5741-5753 | An instance in which nothing throws: a client lets go of the last of a chain of three contexts, below which are a leaf that cannot be made again and a context with a leaf of its own. The first pass takes the leaf, the second what was above it, and as the pin is still set the parent ends below its minimum. |
| CacheManagers.Context.AddRef | Ferris/Ferris.cpp:5598-5682 | The method on the objects does what `Acquire` does to the world. |
| CacheManagers.Context.Release | Ferris/Ferris.cpp:5685-5800 | The method on the objects, with every pass that it and the releases above it start, does what `Releasing` does to the world, wherever that returns. |
| CacheManagers.Context.LetParentGo | Ferris/Ferris.cpp:5742-5753 | The parent is released while the pin is still set, and the pin is cleared after that. |
| CacheManagers.Context.TryToAddOurselfToFreeList | Ferris/Ferris.cpp:10336-10474 | Flagged contexts, contexts in use and roots of the wrong kind stay off the list; any other is listed, and if its number of children is not zero and automatic clean-up does not decline, the whole pass follows, with the pin of the context as it is. |
| CacheManagers.Context.RemoveOurselfFromFreeList | Ferris/Ferris.cpp:10300-10312 | A flagged context leaves the list and loses its flag; any other call changes nothing. |
| CacheManagers.Context.ReclaimContextObject | Ferris/Ferris.cpp:3556-3712 | Refuses exactly the contexts above their minimum and changes nothing then; otherwise takes the child out and releases its parent, with every pass that starts. |
| CacheManagers.CacheManager.AddToFreeList | Ferris/CacheManager.cpp:383-401 | Flag set and context listed, nothing else. |
| CacheManagers.CacheManager.RemoveFromFreeList | Ferris/CacheManager.cpp:403-415 | Flag clear and context unlisted. |
| CacheManagers.CacheManager.AutoClean | Ferris/CacheManager.cpp:417-424 | Switched off, inside another clean-up or inside a resolve it changes nothing; otherwise, without quota and failures, a listed idle leaf goes exactly when the list is longer than the limits, and the call is an unforced clean-up. |
| CacheManagers.CacheManager.Insert | Ferris/Ferris.cpp:2340-2376 | Making a child, under any parent, does what `Discover` does. |
| CacheManagers.CacheManager.CleanOne | Ferris/CacheManager.cpp:841-1213 | The loop body for one context, branch by branch, is one turn. |
| CacheManagers.CacheManager.CleanAll | Ferris/CacheManager.cpp:819-1215 | The loop over the copied list, with the break at the quota, is the whole pass and terminates. |
| CacheManagers.CacheManager.CleanUp | Ferris/CacheManager.cpp:748-1229 | On the fields: inside a resolve, inside another clean-up or at or below a limit it returns 0 and changes nothing; otherwise, without quota and failures, exactly above the limits a listed idle leaf is gone. Any call that goes on is the whole pass, and the guard is as before. |
| SortedViews.PutKeepsOrder | Ferris/Context.cpp:1197 | Inserting into the sorted index keeps it strictly ascending and adds exactly the new child, unless one clashes with it, and then nothing. |
| SortedViews.EraseKeepsOrder | Ferris/Context.cpp:1078-1080 | Erasing takes away whatever clashes with the child, and nothing else. |
| SortedViews.AddAgreesIff | Ferris/Context.cpp:1169-1211 | A new child keeps the two indexes in agreement if and only if it clashes with no child there. |
| SortedViews.DeleteAgrees | Ferris/Context.cpp:1144-1166 | A deletion always does: that child and no other leaves both. |
| SortedViews.EveryRunAgrees | Ferris/Context.cpp:1144-1319 | With a comparator that tells names apart the indexes agree over every run of exists, created, deleted, lazy switches, listings and reads. |
| SortedViews.StepAgrees | Ferris/Context.cpp:1144-1319 | With any other comparator each operation keeps the agreement as long as it brings no clash. |
| SortedViews.ReadTellsEachOnce | Ferris/Context.cpp:1295-1343 | A read announces every child exactly once, in strictly ascending order, and nothing else. |
| SortedViews.ReadForgetsNobody | Ferris/Ferris.cpp:4348-4370 | A read takes no child away: those the base announces are there unmarked, those it no longer announces are there marked. |
| SortedListing.NamesInOrder | Ferris/Ferris.cpp:2225-2271 | Where the list of names is made anew it holds exactly the children that are not marked, in sorting order. |
| SortedListing.MadeInOrder | Ferris/Context.cpp:1113-1128 | So do the memo and the lazy names at the moment they are made. |
| SortedListing.RunKeepsMemo | Ferris/Ferris.cpp:2225-2271 | Over every run a valid memo, and the names served where they are not lazy, are in sorting order. |
| SortedListing.LazyOrderIff | Ferris/Context.cpp:1178-1237 | A new child keeps the lazy names in order if and only if it comes behind all that are there. |
| SortedListing.StepTells | Ferris/Context.cpp:1153-1285 | Each operation announces a new child once, as created or as existing, a child that goes once, and nothing of children that are known; a read announces every child. |
| SortedListing.StepLeaves | Ferris/Context.cpp:1113-1319 | What each operation leaves of the children, their marks and the flags. |
| SortedListing.RunIsWatched | Ferris/Context.cpp:1153-1343 | Whoever follows the events of any run has exactly the children of the view: none comes, changes or goes unannounced. |
| SortedViews.ServedIff | Ferris/Ferris.cpp:2233-2270 | The base class's list names every child exactly when it was valid already or nobody is marked. |
| SortedViews.StepListsIff | Ferris/Context.cpp:1113-1136 | An operation keeps the lazy names a permutation of the children if and only if it makes no list while children are marked. |
| SortedViews.RunListsIff | Ferris/Context.cpp:1113-1136 | Over every run they are a permutation of the children all along if and only if no operation of the run makes a list while children are marked. |
| SortedContexts.SortedContext.AddToSorted | Ferris/Context.cpp:1169-1211 | The method changes the two indexes, the memo, the lazy names and the announcements exactly as modelled. |
| SortedContexts.SortedContext.OnExists | Ferris/Context.cpp:1236-1270 | A known child is only unmarked; a new one is added and announced unless the base is being read. |
| SortedContexts.SortedContext.OnCreated | Ferris/Context.cpp:1216-1230 | The same, always announced as created. |
| SortedContexts.SortedContext.OnDeleted | Ferris/Context.cpp:1144-1166 | The announcement, both indexes, the second erase and the lazy names. |
| SortedContexts.SortedContext.SetLazySorting | Ferris/Context.cpp:1113-1128 | Switching on takes a copy of the base class's names; switching off keeps the stale copy. |
| SortedContexts.SortedContext.BaseSubContextNames | Ferris/Ferris.cpp:2225-2271 | The memo is served while valid and otherwise remade from the unmarked children in sorted order. |
| SortedContexts.SortedContext.EmitExistsEventForEachItem | Ferris/Context.cpp:1322-1343 | One announcement for each child in the order of the sorted index. |
| SortedContexts.SortedContext.Read | Ferris/Context.cpp:1295-1319 | The quick return, the marking, the base's discoveries and the announcements. |
| InheritedAttributes.NearestAnswers | Ferris/Context.cpp:4268-4324 | Every lookup gives the value of the nearest context on the way up that has the name. |
| InheritedAttributes.NobodyAnswers | Ferris/Context.cpp:4268-4324 | When nobody has it the default is given only if the chain ends in an ordinary context and no exception was asked for; an inheriting root throws in any case. |
| InheritedAttributes.BoundIffFound | Ferris/Context.cpp:4348-4375 | A name is bound exactly when its attribute can be got, exactly when its value is found, and exactly when somebody on the chain has it. |
| InheritedAttributes.UnionHolds | Ferris/Attribute.cpp:2085-2094 | The merged list has all names of both lists and no others, sorted or not. |
| InheritedAttributes.NamesAreResolvable | Ferris/Context.cpp:4326-4338 | The listed names are exactly the names that can be looked up, whatever the order of the lists. |
| InheritedAttributes.NamesAreAppended | Ferris/Context.cpp:4326-4338 | The names go behind those that are given already. |
| InheritedAttributes.UnionSorted | Ferris/Attribute.cpp:2085-2094 | Merging strictly sorted lists gives a strictly sorted one, so no name is there twice. |
| InheritedAttributes.UnionIsCleanIff | Ferris/Attribute.cpp:2085-2094 | A list without duplicates merges without duplicates into every sorted list if and only if it is sorted itself. |
| InheritedAttributes.CountIsExact | Ferris/Context.cpp:4340-4346 | With sorted lists all the way up the attribute count is the number of names that can be looked up. |
| InheritedAttributes.CountIsExactIff | Ferris/Context.cpp:4340-4346 | On every chain the count is never below the number of names that can be looked up, and equals it if and only if no name is listed twice. |
| InheritedAttributes.DelegateCountsIff | Ferris/Context.cpp:4340-4346 | A delegate without duplicates has the right count above every parent that lists its names in order if and only if it lists its own in order. |
| InheritedAttributes.UnsortedNamesAreCountedTwice | Ferris/Context.cpp:4340-4346 | An instance: `b`, `a` above `a` is counted as three. |
| AttributeCache.TableIs | Ferris/Attribute.cpp:1831-1973 | Over every history a name is in the table exactly if it was inserted since the last flush, and its value is of that time. |
| AttributeCache.StampIs | Ferris/Attribute.cpp:1947-1953 | The shared stamp is the time of the last insertion of any name. |
| AttributeCache.LookupLeaves | Ferris/Attribute.cpp:1831-1973 | What one lookup leaves: a cached name in the table with the time of what was served, the others all kept or all gone, and the stamp moved exactly by an insertion. |
| AttributeCache.TimeIsReadDirectly | Ferris/Attribute.cpp:1831-1973 | The modification time is always read directly. |
| AttributeCache.StaleIff | Ferris/Attribute.cpp:1831-1973 | A lookup serves a value older than the context if and only if its name was read before the last change and another insertion since that change moved the stamp while the table was kept. |
| AttributeCache.WrongValueIsOvertaken | Ferris/Attribute.cpp:1831-1973 | When values depend on the modification time alone, a served value differs from the current one only then. |
| AttributeCache.OneNameIsCoherent | Ferris/Attribute.cpp:1831-1973 | With a single cached name every run is coherent. |
| AttributeCache.TwoNamesAreNot | Ferris/Attribute.cpp:1947-1953 | Two names are enough to serve a wrong value. |
| AttributeCache.RDFCacheAttribute.GetIStream | Ferris/Attribute.cpp:1459-1503 | The value is read when it is first asked for and served from then on. |
| AttributeCache.AttributeCollection.GetAttributeIfExists | Ferris/Attribute.cpp:1831-1973 | Hit, flush, insertion and direct read, with the stamp each leaves. |
| AttributeCache.AttributeCollection.Read | Ferris/Attribute.cpp:1831-1973 | A lookup that is read at once serves the value of the time the model says and leaves the table the model says. |
| ChmodOperations.Chmod.Call | Ferris/Chmod.cpp:220-232 | The loop folds the operations over the mode. |
| ChmodOperations.ChainAppend | Ferris/Chmod.cpp:220-232 | Appended chains compose. |
| ChmodOperations.ChainIsOneMask | Ferris/Chmod.cpp:109-203 | Any chain of r, w, x, s and t operations of any length is one clear mask and one set mask, computed by a fold over the chain. |
| ChmodOperations.RunIdempotent | Ferris/Chmod.cpp:109-232 | Applying such a chain twice is applying it once. |
| ChmodOperations.ChainKeepsType | Ferris/Chmod.cpp:109-203 | A chain whose masks lie in the permission bits, with X and copies or without, changes no other bit. |
| ChmodParser.ParseAffectedBits | Ferris/Chmod.cpp:253-283 | The who letters are consumed, commas included, and the first other character is put back. |
| ChmodParser.MakeOp | Ferris/Chmod.cpp:286-480 | Each letter gives the operation with the mask and the switches of its case; any other character gives none. |
| ChmodParser.ReadClause | Ferris/Chmod.cpp:373-490 | One turn of the outer loop: it consumes input and goes on, stops, or refuses, and appends exactly the operations of the clause. |
| ChmodParser.MakeChmod | Ferris/Chmod.cpp:302-491 | For every string the parser ends, and compiles to exactly the chain the grammar gives it or refuses it exactly when the grammar does. |
| ChmodParser.TurnInverts | Ferris/Chmod.cpp:373-490 | A printed clause is read back as that clause, and the character behind it decides what is next. |
| ChmodParser.ParsingInvertsPrinting | Ferris/Chmod.cpp:364-491 | Printing any list of who, operator and letters clauses and parsing it gives exactly the per-letter operations with the right masks. |
| ChmodParser.ModeStringsRoundTrip | Ferris/Chmod.cpp:302-491 | The same for whole mode strings, with blanks anywhere. |
| ChmodParser.SecondOperatorIsRefused | Ferris/Chmod.cpp:482-489 | A second operator in a clause, which POSIX.1-2017 allows, makes the string invalid. |
| ChmodLetters.LetterMeans | Ferris/Chmod.cpp:253-480 | For each class u, g, o, a and each letter r, w, x, s, t the string of class, operator and letter adds, removes or sets exactly the bit numbers of a table. |
| ChmodLetters.ClauseMeans | Ferris/Chmod.cpp:253-480 | So for any classes and any of these letters together; of an `=` clause the last letter counts. |
| ChmodLetters.ExecuteMeans | Ferris/Chmod.cpp:149-203 | X is x on a directory or where anybody may execute, and otherwise no bit at all. |
| ChmodLetters.CopyMeans | Ferris/Chmod.cpp:116-145 | A copy gives the classes the bits of a table, the misdirected write bit among them. |
| ChmodLetters.NoClassMeans | Ferris/Chmod.cpp:373-413 | Without classes all are meant, less the umask where the operator goes by it, and `=` clears all. |
| ChmodLetters.CommaMeansThen | Ferris/Chmod.cpp:364-491 | Two lists of clauses with a comma between them do one after the other what each does alone. |
| ChmodLetters.CommasAmongClasses | Ferris/Chmod.cpp:253-283 | A comma among the class letters says nothing. |
| ChmodLetters.StrayIsSkipped | Ferris/Chmod.cpp:364-396 | A character that is no operator is skipped with the classes in front of it. |
| ChmodLetters.StripMeans | Ferris/Chmod.cpp:364-392 | Blanks go, and nothing else. |
| ChmodMeaning.FileTypeIsKept | Ferris/Chmod.cpp:302-491 | For every string, octal, X and copies included, bits outside 07777 never change. |
| ChmodMeaning.PlusAndMinus | Ferris/Chmod.cpp:177-203 | `+` adds and `-` removes exactly the named bits of the affected classes. |
| ChmodMeaning.LastLetterWins | Ferris/Chmod.cpp:163-175 | In an `=` clause only the last letter survives. |
| ChmodMeaning.EqualsMeetsPosix | Ferris/Chmod.cpp:163-175 | An `=` clause does what POSIX.1-2017 asks on every mode if and only if its last letter already names all the affected bits the clause names. |
| ChmodIdempotence.PlainStringIsIdempotent | Ferris/Chmod.cpp:302-491 | Every string that compiles and has plain letters only behind its operators is idempotent, whatever else it holds: blanks, commas and stray characters among the who letters, empty clauses, octal digits. |
| ChmodIdempotence.OneClauseIsIdempotent | Ferris/Chmod.cpp:149-203 | Every clause of the letters r, w, x, X, s and t, in any order and number, is idempotent on every mode, for every operator, affected mask and umask. |
| ChmodIdempotence.OneXIsIdempotentIff | Ferris/Chmod.cpp:149-203 | A string of any clauses with one X is idempotent on every mode if and only if a test on the masks in front of the X and behind it holds: what is in front adds an execute bit, or the X removes bits, or what is behind decides all it adds, or nothing behind can wake it and nothing that woke it is lost without its own bits waking it again. |
| ChmodIdempotence.EightModesDecide | Ferris/Chmod.cpp:109-232 | Without copies, however many X there are, a string is idempotent on every mode if and only if it is on the eight modes that have execute bits only. |
| ChmodCopies.CopyIsIdempotent | Ferris/Chmod.cpp:116-145 | A single copy is idempotent, for every class, operator and affected mask. |
| ChmodCopies.TwoCopiesIff | Ferris/Chmod.cpp:116-145 | A string of two copies, `t1=f1,t2=f2`, compiles and is idempotent on every mode unless it overwrites the class it has just read, with a third class or, in `u=o,o=u`, with its target; then and only then it is not. |
| ChmodCopies.MixedFails | Ferris/Chmod.cpp:116-145 | Each such string has a mode of permission bits on which it takes a second run. |
| ChmodCopies.StringModesDecide | Ferris/Chmod.cpp:109-491 | Every string that compiles, with X and copies in any number, is idempotent on every mode if and only if it is on the modes of permission bits only, with and without the directory type. |
| ChmodCopies.OneBitModesDecide | Ferris/Chmod.cpp:109-232 | If only plain letters are taken away, however many X and copies there are, a chain is idempotent on every mode if and only if it is on the empty mode and the twelve of one bit, with and without the directory type. |
| ChmodCopies.ChainJoins | Ferris/Chmod.cpp:109-232 | Such a chain makes of two modes together what it makes of each. |
| ChmodCopies.ClausesJoin | Ferris/Chmod.cpp:373-490 | Strings whose `-` clauses have plain letters only compile to such chains. |
| ChmodMeaning.ConditionalExecuteIsNotIdempotent | Ferris/Chmod.cpp:149-155 | An instance with X whose masks fail the test. |
| ChmodMeaning.CopyIsExact | Ferris/Chmod.cpp:116-145 | Copying one class onto another is exact if and only if it does not meet the misdirected write bit. |
| ChmodMeaning.OctalRoundTrip | Ferris/Chmod.cpp:313-319 | Octal digits printed and extracted again give the number. |
| ChmodLetters.BitsAre | Ferris/Chmod.cpp:321-357 | The bits an octal number sets are its binary digits. |
| ChmodLetters.DecimalDigits | Ferris/Chmod.cpp:311-319 | The digits 8 and 9 make a number of the string and end its value. |
| ChmodMeaning.OctalSetsMode | Ferris/Chmod.cpp:311-362 | An octal string sets exactly the twelve low bits, ignores the four above them and is refused if it has any other. |
| ChmodMeaning.EmptyStringClears | Ferris/Chmod.cpp:311-362 | The empty string counts as a number and clears every permission bit. |

## Left out

- The bracket count of the framer is an unbounded integer, the byte stream is a string, and the XML parser is a parameter that accepts or rejects.
- Messages are announced to a list; what listeners do with them, and signals in general, are not modelled.
- The timers of the object cache are calls that may come at any time; rearming them is not modelled.
- Rules for clients of the object cache: no key is bound twice, no object is put twice, and handles are not taken through its iterators.
- Bases are read once during setup; a base that changes while a view is set up is not modelled.
- ViewEvents.IncrementalAgrees: is about events of the first base, the only one that is connected; changes of other bases never reach a view, as `CreateIn` and `DeleteIn` state.
- Children of set views stand for the contexts they wrap; the views below them are not modelled.
- The free list is a hash set, so its order is a parameter, as is which contexts throw when they are reclaimed, pass by pass; an exception is thrown before anything is changed. Lemmas that need it say that nothing throws.
- UnsafeReleases.ReleaseIsRightIff: is about passes without limits; with limits `SecureIsRight` still says which releases go well, but not that all others go wrong.
- Overmounted contexts are skipped as the code skips them; taking a mount apart is not modelled, nor are chained views as children of ordinary contexts or the higher minimum of sorted contexts.
- FreeListRuns.EveryRunAccounts: a release with automatic clean-up on is one that is secure, or that is safe while nothing throws and no limit comes in the way, and `ReleaseIsRightIff` says what becomes of the others; children are discovered through a handle on their parent, as a reader holds one, and `DiscoverKeepsIff` says what happens otherwise. Settings stay as they are during a run, and the saturating maximum of a reference count is not modelled.
- The number of children that a context reports is a mark, zero or not, that a reader may set either way; the exact number is not modelled, nor is the start of a pass by an overmounted context.
- CacheManagers.Context.Release: is about releases in which no pass takes away a context whose Release is still running; what the code does with the memory of such a context is not modelled, only when it happens (`ReleaseReturnsIff`, `LeafReturnsIff`, `ReleaseIsRightIff`).
- CacheManagers.Context.ReclaimContextObject: an idle child is one without children, as the only caller makes sure, and the release of its parent is one that returns.
- ChmodIdempotence.OneXIsIdempotentIff: is about strings with one X and no copies; for several X `EightModesDecide` and for X and copies together `StringModesDecide` give the modes to look at.
- ChmodCopies.TwoCopiesIff: is about two `=` copies; for other letters beside copies `OneBitModesDecide` gives twenty-six modes to look at, and where X or copies are taken away `StringModesDecide` all of them.
- XmlDocuments.DocumentFrame: the names of tags have no brackets, slashes or question marks in them, and comments, CDATA sections and document types do not end in `<`, `/` or `?` before their last `>`; no XML document differs. Which of them are well-formed XML beyond that is not modelled.
- `DepthFirstDelete` has no caller outside a comment and is not modelled.
- Announcements of a sorted view are recorded; iterators over it and the base class's paging are not modelled.
- SortedViews.StepListsIff: treats the marks of children by name, which is exact while the two indexes agree.
- InheritedAttributes.NamesAreResolvable: takes each ordinary context to list exactly the names it has.
- The delegate of an inheriting context throws only for names it does not have.
- AttributeCache.StaleIff: takes each lookup to be read before the next change, and modification times never to go back.
- The persistent store behind the attribute cache, and attributes loaded from it, are not modelled.
- Modes are sets of bit numbers; the umask is a parameter, and digits beyond the range of a machine integer are not modelled.
- Remote file systems, plugins, process spawning, clipboard commands, agents and the indexing and medallion code are not modelled.
