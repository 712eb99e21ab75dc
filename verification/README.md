# Proofs about a crawler and search engine

A Dafny model of the parts of the crawler and search engine that keep state under concurrency, rearrange data in
place, or promise an optimum. `dafny verify dfyconfig.toml` checks all of it. Where the original changes fields,
arrays or linked nodes step by step, the model has a class or a method with the same branches and loops, proved
against a specification on values; what the specification promises is then proved about it in lemmas.

| module | models | main results |
|---|---|---|
| `Wrappers` | options and bytes, which several modules share | |
| `Tasks`, `MinMaxHeap` | the double-ended priority queue of the scheduler, in place on a sequence | every node bounds all its descendants after every operation; any run of operations is a run of the abstract queue; what is inserted comes out greatest first, each item once |
| `WorkerPool` | the scheduler as a transition system with one step for each action another goroutine can observe | token balance, wait-group balance and conservation of tasks in every interleaving; which tasks are picked and thrown out; what other goroutines leave alone |
| `Losses` | the pushes on the overflow stack in that system | exactly which lose a task or end the process; exactly for which tasks no interleaving has one; executions that have |
| `TopK` | executions of Submit alone | the heap holds the best `capacity` tasks |
| `Pool` | Submit, the worker loop, the ticker and Wait as code; other goroutines run between any two atomic actions | each action is a step of the protocol, and each call ends as it should in every interleaving |
| `FileStack` | the on-disk stack, as bytes of a file and as a class with a file position | exactly which records survive a push and a pop; every run on the file is a run on a list, across reopening |
| `StackFile` | the scheduler's stack of records as the bytes of that file | in every interleaving each push and pop of the protocol is one of the file |
| `Recency`, `LruCache` | the least-recently-used cache: list of entries, and linked nodes between sentinels with a map | pointer surgery refines the list; after any uses a full cache loses exactly the key used longest ago; a smaller cache always holds part of what a larger one holds |
| `EditDistance`, `SpellChecker` | the one-row edit distance with cut-off, and the choice of a replacement | the recursion is the least cost over all edit scripts, and a metric; the row computes it; the replacement is a best one, and what makes it so |
| `Proximity` | how close together a document has the words of a query | the greedy search finds the minimum over all chains, which is least exactly where the words are side by side |
| `MinHash`, `NearDuplicates` | signatures of pages and the filter against near duplicates | the band index finds every signature that agrees in 113 of 128 rows, 113 is sharp, and no run over any pages stores two such |
| `Trigrams`, `WordIds` | the trigram index, and the handing out of ids by 26 concurrent workers to clients that file the postings | ids and words stay inverse in every interleaving; no lookup meets an invalid id at any moment; at rest it returns exactly the words that share a trigram |
| `PrefixScan` | posting keys and the range scan of the ordered store | the range of a prefix is exact; exactly when the scan fails, and words with which it does |
| `PositionCodec` | the stored form of what a document has of a word: count and positions, packed with the kind of their text, in a byte buffer | exactly which records and positions come back, and what becomes of the others |
| `Tokenizer` | choice of entity spans and runs between them | the tokens partition the text, and with the gaps rebuild it |
| `Crawl` | the walk over the link graph that relabels pages with smaller depths | it ends in any order; labels are lengths of real paths; without faults they are distances in the graph of the links followed, and in the whole graph exactly if no dropped link would have helped; they always are in order of depth; a walk where they are not |
| `Crawler` | the execution of one task, with the labels, the cache and the store of links | each execution is one step of the walk; a crawl in a world without faults meets the conditions above |
| `LabelRace` | the label of one page under tasks that overlap | the label can rise in some run exactly if two tasks of different depths may both find a label above theirs |

## Where code and comments disagree

- `internal/services/wfts/offline/indexer/textHandling/tokenizer.go:112-117`: of the candidates that begin at the
  same place the comparison puts the shortest first, where one would expect the longest. The model follows the
  code (`Tokenizer.Before`), and `Shortest` states the effect.
- `internal/services/wfts/offline/scraper/sitemapHandling.go:126-151`: a sitemap that is found is reported by an
  error, on which `scraper.go:199-202` ends the task as done. So the links of a sitemap are never followed, and a page
  goes on only if its site has none.
- `internal/services/wfts/offline/scraper/htmlHandling.go:178-184`: links back to pages with smaller labels are left out
  of what is kept for a page. When the page is reached again on a shorter way, such a link may have become a shortcut, but
  it is gone. `Crawl.DroppedLinkIsMissed` is a walk where this makes a label too large, and `Crawl.LabelsAreDistances`
  states exactly when it does not.
- `internal/services/wfts/offline/scraper/scraper.go:221` and `276-278`: a task that is canceled among its links goes back
  to the queue, but finds its own label when it runs again and ends as done; the links that were cut off are not followed
  (`Crawl.RetryIsSeen`).
- `internal/services/wfts/offline/scraper/scraper.go:221-225`: looking a label up and lowering it are two accesses. Of two
  tasks that overlap the one with the larger depth may write last, and the label rises (`LabelRace.OverlapRaises`); `LabelRace.LabelsFallUnlessTasksOverlap` states exactly for
  which depths that can happen.
- `internal/utils/scheduler/mmheap.go:17-23`: the list of tokens begins with as many empty entries as the heap
  has items. `MinMaxHeap.ListingIsContents` states when that is harmless.
- `internal/services/wfts/offline/indexer/spellChecker/spellChecker.go:88`: entry 0 of each row is one too small.
  `EditDistance.NextRow` shows that this does not matter.
- `internal/services/wfts/offline/scraper/fileQueue.go:36-39`: the length is kept in 16 bits, so records longer
  than 65533 bytes are cut or make the push panic. `FileStack.PopUndoesPush` states the exact bound, and
  `Losses.LossIsOverflow` what that does to the tasks of the scheduler.
- `internal/repository/indexRepos.go:177-206`: keys of a word that goes on with an underscore fall into the range
  of the shorter word and make the lookup fail. `PrefixScan.PostingStore.GetDocumentsByWord` states exactly when, and
  `PrefixScan.UnderscoreHidesUnderscore` is such a lookup.
- `internal/repository/indexRepos.go:246-252`: one bit is kept of the tags 'b' and 'h'. Both come back as 0, and their
  other bits get into the position (`PositionCodec.TagsAreLost`).
- `internal/repository/indexRepos.go:220-244`: the count of a word is kept in 16 bits and says how many positions are read,
  so from 65536 occurrences on both come back wrong (`PositionCodec.WhatComesBack`, `PositionCodec.IndexedComesBack`). The
  buffer has twice the room that the positions need. The limit of 1 MiB (line 165) never applies.
- `internal/services/wfts/offline/scraper/lruCache/lruCache.go:51-64`: with a capacity of zero every Put follows the
  missing neighbour of the head sentinel (`LruCache.LruCache.Put`).

## Model

| member | source | states |
|---|---|---|
| `MinMaxHeap.LevelIsFloorLog2` | internal/utils/scheduler/mmheap.go:97-99 | the recursive level is the integer part of log2(i + 1) |
| `MinMaxHeap.LocalIffMinMax` | internal/utils/scheduler/mmheap.go:105-212 | agreeing with parent and grandparent everywhere is the same as every node bounding all its descendants |
| `MinMaxHeap.BubbleStep` | internal/utils/scheduler/mmheap.go:128-150 | exchanging with a grandparent moves the only place where the order may be broken up two levels |
| `MinMaxHeap.TrickleSwap` | internal/utils/scheduler/mmheap.go:160-212 | exchanging with the most extreme grandchild leaves at most that grandchild and its parent out of order |
| `MinMaxHeap.TrickleParent` | internal/utils/scheduler/mmheap.go:168-175 | the second exchange, exactly where it is needed, leaves only the places below the grandchild open |
| `MinMaxHeap.MinMaxHeap.Insert` | internal/utils/scheduler/mmheap.go:29-33 | keeps the order over all descendants and adds exactly the one item |
| `MinMaxHeap.MinMaxHeap.GetMin` | internal/utils/scheduler/mmheap.go:35-40 | a least item, or none exactly when the heap is empty |
| `MinMaxHeap.MinMaxHeap.GetMax` | internal/utils/scheduler/mmheap.go:42-54 | a greatest item, or none exactly when the heap is empty |
| `MinMaxHeap.MinMaxHeap.DeleteMin` | internal/utils/scheduler/mmheap.go:56-69 | takes out the item GetMin returns, a least one, and nothing else, and keeps the order |
| `MinMaxHeap.MinMaxHeap.DeleteMax` | internal/utils/scheduler/mmheap.go:71-95 | takes out the item GetMax returns, a greatest one, and nothing else, and keeps the order |
| `MinMaxHeap.MinMaxHeap.BubbleUp` | internal/utils/scheduler/mmheap.go:105-126 | restores the order after an item was appended, and permutes |
| `MinMaxHeap.MinMaxHeap.BubbleUpMin` | internal/utils/scheduler/mmheap.go:128-138 | restores the order from a place on an even level upwards, and permutes |
| `MinMaxHeap.MinMaxHeap.BubbleUpMax` | internal/utils/scheduler/mmheap.go:140-150 | restores the order from a place on an odd level upwards, and permutes |
| `MinMaxHeap.MinMaxHeap.TrickleDownMin` | internal/utils/scheduler/mmheap.go:160-185 | ends, restores the order below a place on an even level, and permutes |
| `MinMaxHeap.MinMaxHeap.TrickleDownMax` | internal/utils/scheduler/mmheap.go:187-212 | ends, restores the order below a place on an odd level, and permutes |
| `MinMaxHeap.MinMaxHeap.ExtremeDescendant` | internal/utils/scheduler/mmheap.go:222-243 | a most extreme one of the children and grandchildren, or -1 exactly when there is none |
| `MinMaxHeap.MinMaxHeap.Tokens` | internal/utils/scheduler/mmheap.go:17-23 | the items in the order of the heap, behind as many empty entries |
| `MinMaxHeap.ListingIsContents` | internal/utils/scheduler/mmheap.go:17-23 | that list has no empty entries, and the length of the heap, exactly when the heap is empty |
| `MinMaxHeap.RunOps` | internal/utils/scheduler/mmheap.go:29-95 | any sequence of operations answers and ends as a double-ended priority queue may |
| `MinMaxHeap.DrainIsOrdered` | internal/utils/scheduler/mmheap.go:56-95 | in a drain from either end, in any alternation, each answer bounds all later ones |
| `MinMaxHeap.DrainIsPermutation` | internal/utils/scheduler/mmheap.go:56-95 | what a drain has returned and what is left make up what was there, each item once |
| `MinMaxHeap.InsertThenDrain` | internal/utils/scheduler/mmheap.go:29-95 | inserting tasks into a new heap and deleting the maximum until it is empty gives them in non-increasing order, each once |
| `WorkerPool.StepKeepsBalance` | internal/utils/scheduler/workerPool.go:57-60 | every step keeps: tokens in the channel and in workers' hands are the heap items and those on their way in; the wait group counts the tasks not yet marked done |
| `WorkerPool.BalanceGuarantees` | internal/utils/scheduler/workerPool.go:68-125 | a worker with the mutex finds a task, the branch that returns the token and the one that forgets a task are dead, the heap stays within capacity plus workers, and an idle wait group means an empty heap |
| `WorkerPool.StepKeepsConserved` | internal/utils/scheduler/workerPool.go:34-125 | every step keeps each submitted task in exactly one of caller, critical section, heap, worker, ticker, stack, finished, refused or cut by the stack; a push that panics leaves it where it was |
| `WorkerPool.ExecutionIsSafe` | internal/utils/scheduler/workerPool.go:34-125 | balance and conservation hold at every moment of every interleaving of submitters, workers and ticker |
| `WorkerPool.PicksAreRight` | internal/utils/scheduler/workerPool.go:68-125 | at every step of every interleaving: a worker takes a task than which none in the heap is greater; one is thrown out only if it is least and strictly worse than the new one; a new one is not let in only if none in the heap is worse |
| `WorkerPool.OtherStepLeavesAlone` | internal/utils/scheduler/workerPool.go:68-125 | a step that a goroutine does not take leaves alone its waiting call, what it holds as worker or ticker, and, while it has the mutex, the mutex and the heap |
| `WorkerPool.OthersLeaveAlone` | internal/utils/scheduler/workerPool.go:68-125 | and so does any number of such steps in any execution |
| `Losses.LossIsOverflow` | internal/services/wfts/offline/scraper/fileQueue.go:30-42 | a step loses a task or ends the process if and only if it pushes on a stack past its bound or a task longer than 65533 bytes; it ends the process exactly if the stack is within its bound and the length plus two wraps around to less than two |
| `Losses.LossesAreOverflows` | internal/utils/scheduler/workerPool.go:68-125 | an interleaving has lost nothing and goes on if and only if none of its steps was such a push |
| `Losses.NothingIsLost` | internal/utils/scheduler/workerPool.go:68-125 | if each submitted task can be kept and all the others together are within the bound of the stack, then no moment of the interleaving has lost one or ended the process |
| `Losses.SomethingIsLost` | internal/services/wfts/offline/scraper/fileQueue.go:30-42 | for every task that could not be kept on top of all the others there is an interleaving, from any stack of whole tasks, that loses a task or ends the process |
| `Losses.NothingIsLostExactly` | internal/utils/scheduler/workerPool.go:68-125 | no interleaving of submissions out of given tasks loses one or ends the process, if and only if each of them can be kept and all the others together are within the bound |
| `Losses.LongTaskIsLost` | internal/services/wfts/offline/scraper/fileQueue.go:36-39 | with room for one task, every second task that is no better and too long is lost, or ends the process, on an empty stack |
| `StackFile.PushIsPushed` | internal/services/wfts/offline/scraper/fileQueue.go:30-42 | what the protocol says of a push, panic and cut included, is what the push does to the bytes of the file |
| `StackFile.PopIsPopped` | internal/services/wfts/offline/scraper/fileQueue.go:44-69 | what it says of a pop is what the pop does; a whole record comes back byte for byte, of a cut one less than was pushed |
| `StackFile.ExecutionIsOnFile` | internal/utils/scheduler/workerPool.go:34-125 | in every interleaving the file is, step by step, what the pushes and pops make of it |
| `TopK.SubmitsKeepBest` | internal/utils/scheduler/workerPool.go:68-90 | while only Submits run, no spilled task is better than a kept one, at any moment |
| `TopK.HeapHoldsTheBest` | internal/utils/scheduler/workerPool.go:68-90 | then, once all have returned, the heap holds min(capacity, n) of the n submitted tasks, the rest is spilled, and no spilled one is better |
| `Pool.Pool.DidIsNext` | internal/utils/scheduler/workerPool.go:68-125 | what the contracts of the atomic actions promise is a step of the protocol from the state before |
| `Pool.Pool.Submit` | internal/utils/scheduler/workerPool.go:68-90 | in any interleaving the task is accepted, or replaces a task that is least in the heap then and strictly worse, or is spilled itself because a least one is no worse, and the mutex is free again; or the caller still waits for the mutex |
| `Pool.Pool.Overflowing` | internal/utils/scheduler/workerPool.go:76-89 | with the channel full, the worse of the new and the least task is spilled; never is a task forgotten |
| `Pool.Pool.Work` | internal/utils/scheduler/workerPool.go:92-113 | a worker that gets a token and the mutex gets a task that is greatest in the heap at that moment, executes that one, and pushes it back exactly if it was canceled; otherwise it still waits for the mutex |
| `Pool.Pool.HeapAct` | internal/utils/scheduler/workerPool.go:57-60 | marks the task done before it is executed, and ends with it finished or pushed back |
| `Pool.Pool.Tick` | internal/utils/scheduler/workerPool.go:39-47 | takes the most recently spilled task, if any, and submits that one |
| `Pool.Pool.Wait` | internal/utils/scheduler/workerPool.go:137-139 | the heap is empty the moment the wait group is idle |
| `FileStack.LengthRoundTrip` | internal/services/wfts/offline/scraper/fileQueue.go:38 | the two bytes of length, the low one first, decode to what was encoded |
| `FileStack.PopUndoesPush` | internal/services/wfts/offline/scraper/fileQueue.go:30-69 | a pop gives back an accepted record byte for byte and restores the file if and only if it has at most 65533 bytes |
| `FileStack.PopGivesBackTheLength` | internal/services/wfts/offline/scraper/fileQueue.go:30-69 | for data of any length: the push panics exactly if the length modulo 65536 is 65534 or 65535; otherwise a pop gives back as many bytes as the length modulo 65536, and restores the file |
| `FileStack.LongRecordsAreLost` | internal/services/wfts/offline/scraper/fileQueue.go:36-39 | a record of 65534 bytes makes the push panic, and one of 65536 bytes comes back empty |
| `FileStack.PopOfRecords` | internal/services/wfts/offline/scraper/fileQueue.go:44-69 | on a file of encoded records a pop takes off the last one and is never corrupted |
| `FileStack.PushOfRecords` | internal/services/wfts/offline/scraper/fileQueue.go:30-42 | a push appends one encoded record, unless the file is past the bound |
| `FileStack.EncodeIsInjective` | internal/services/wfts/offline/scraper/fileQueue.go:17-26 | the bytes determine the records, so the file is all that reopening needs |
| `FileStack.FileRefinesStack` | internal/services/wfts/offline/scraper/fileQueue.go:17-69 | every run of pushes, pops and reopenings on the file answers as on a list and ends with its encoding |
| `FileStack.FileStaysBounded` | internal/services/wfts/offline/scraper/fileQueue.go:31-35 | in any run the file stays within the bound plus 65535 bytes |
| `FileStack.Stack.Push` | internal/services/wfts/offline/scraper/fileQueue.go:30-42 | seek and write do to the file what the specification says, panic included |
| `FileStack.Stack.Pop` | internal/services/wfts/offline/scraper/fileQueue.go:44-69 | seeks, reads and truncation do to the file what the specification says |
| `Recency.PutEvictsOnlyTheOldest` | internal/services/wfts/offline/scraper/lruCache/lruCache.go:51-64 | a Put loses another key exactly when the cache is full, the key put is new, and the other is the least recently used |
| `Recency.RunIsByUse` | internal/services/wfts/offline/scraper/lruCache/lruCache.go:38-79 | after any Gets and Puts the entries are in the order in which their keys were used last |
| `Recency.LosesLeastRecentlyUsed` | internal/services/wfts/offline/scraper/lruCache/lruCache.go:38-64 | after any Gets and Puts, one more loses a key if and only if it puts a new key on a full cache and the key lost was used longest ago; every other key keeps its value, and a key put has the new one |
| `Recency.SmallerIsIncluded` | internal/services/wfts/offline/scraper/lruCache/lruCache.go:38-79 | after the same Gets and Puts a smaller cache's list is a subsequence of a larger one's, with equal values |
| `LruCache.LruCache.Get` | internal/services/wfts/offline/scraper/lruCache/lruCache.go:38-49 | returns the value of the key, if it is there, and moves its entry to the front of the list; so a hit counts as a use |
| `LruCache.LruCache.Put` | internal/services/wfts/offline/scraper/lruCache/lruCache.go:51-64 | puts the entry at the front and evicts as the list does, within the capacity; panics exactly if the capacity is zero, and then changes nothing |
| `LruCache.LruCache.Remove` | internal/services/wfts/offline/scraper/lruCache/lruCache.go:66-70 | takes one node out of both chains and its key out of the map, and nothing else |
| `LruCache.LruCache.Insert` | internal/services/wfts/offline/scraper/lruCache/lruCache.go:72-79 | puts a node behind the head sentinel in both chains and its key into the map |
| `LruCache.Replay` | internal/services/wfts/offline/scraper/lruCache/lruCache.go:38-79 | any trace on the linked nodes leaves the contents that the list has after the same trace, unless the capacity is zero and there is a Put |
| `EditDistance.DistanceIsLeast` | internal/services/wfts/offline/indexer/spellChecker/spellChecker.go:74-106 | the recursive distance is the least number of changed letters over all edit scripts |
| `EditDistance.DistanceIsMetric` | internal/services/wfts/offline/indexer/spellChecker/spellChecker.go:74-106 | it is 0 only for equal words, symmetric, and no detour over a third word is shorter |
| `EditDistance.Lipschitz` | internal/services/wfts/offline/indexer/spellChecker/spellChecker.go:90-100 | neighbouring entries of the table differ by at most one |
| `EditDistance.LaterRowsAbove` | internal/services/wfts/offline/indexer/spellChecker/spellChecker.go:101-103 | if a row lies above a limit, so do all later rows |
| `EditDistance.NextRow` | internal/services/wfts/offline/indexer/spellChecker/spellChecker.go:88-100 | overwriting in place turns entries from 1 on of one row into those of the next, and the least value seen is a lower bound |
| `EditDistance.LevenshteinDistance` | internal/services/wfts/offline/indexer/spellChecker/spellChecker.go:74-106 | the distance, or the limit plus one, and that only if the distance exceeds the limit |
| `SpellChecker.BestNear` | internal/services/wfts/offline/indexer/spellChecker/spellChecker.go:29-41 | the first candidate of highest score among those truly nearer than the limit, or nothing exactly if none is |
| `SpellChecker.BestCut` | internal/services/wfts/offline/indexer/spellChecker/spellChecker.go:43-65 | the first best cut into two candidates of at least three letters, or nothing exactly if there is none |
| `SpellChecker.BestReplacement` | internal/services/wfts/offline/indexer/spellChecker/spellChecker.go:24-67 | with a candidate nearer than the limit, replaces the word by one of highest score, the nearest and first of those with equal neighbours; else, with a cut into two candidates of at least three letters, by a best cut; else leaves the query; all other words are unchanged |
| `SpellChecker.ScoreWithoutEdits` | internal/services/wfts/offline/indexer/spellChecker/spellChecker.go:69-72 | a candidate without edits scores twice its left plus three times its right neighbour, but at least 0.00001 |
| `SpellChecker.OneMoreEdit` | internal/services/wfts/offline/indexer/spellChecker/spellChecker.go:69-72 | one more edit halves the score |
| `SpellChecker.NeighboursWeigh` | internal/services/wfts/offline/indexer/spellChecker/spellChecker.go:69-72 | at any distance the right neighbour weighs one and a half times as much as the left |
| `SpellChecker.ScoreRises` | internal/services/wfts/offline/indexer/spellChecker/spellChecker.go:69-72 | above the floor the score rises with either neighbour |
| `SpellChecker.BestSplitWeighsMost` | internal/services/wfts/offline/indexer/spellChecker/spellChecker.go:50-63 | the parts chosen go best with the neighbours, two to three, among all cuts above the floor; the first of those that go equally well |
| `SpellChecker.CutKeepsText` | internal/services/wfts/offline/indexer/spellChecker/spellChecker.go:66 | a cut adds one word and keeps the letters of the query in order |
| `Proximity.FirstGreater` | internal/services/wfts/online/searcher/preprocessingFeatures.go:20-32 | the binary search finds the first position greater than the target |
| `Proximity.GreedyStaysFirst` | internal/services/wfts/online/searcher/preprocessingFeatures.go:47-52 | of all chains of its length from the same start, the greedy one still ends first after one more term |
| `Proximity.GreedyDeadEnd` | internal/services/wfts/online/searcher/preprocessingFeatures.go:48-51 | where the greedy chain cannot go on, no chain from that start is longer |
| `Proximity.FromStart` | internal/services/wfts/online/searcher/preprocessingFeatures.go:36-57 | the least cost over all complete chains from one start, or none if there is no such chain |
| `Proximity.MinQueryDistInDoc` | internal/services/wfts/online/searcher/preprocessingFeatures.go:17-62 | the minimum of span plus penalty over every start term and every increasing choice of positions |
| `Proximity.CostIsSpanAndMissing` | internal/services/wfts/online/searcher/preprocessingFeatures.go:15-57 | a choice of positions costs its span and 50 for each word of the query left out, whether it is missing or comes before the first one |
| `Proximity.LeastWhereSideBySide` | internal/services/wfts/online/searcher/preprocessingFeatures.go:17-62 | for n words the result is at least n - 1, and n - 1 exactly if the document has them side by side in order |
| `Proximity.MaxIntMeansNoChain` | internal/services/wfts/online/searcher/preprocessingFeatures.go:18 | the result is the largest integer exactly when every choice costs that much; for queries below 2^32 terms and positions from 0 to 2^60, exactly when there is no choice |
| `MinHash.CreateSignature` | internal/services/wfts/offline/indexer/minHash.go:31-49 | each row is the minimum of its hash over the set of four-word shingles, with 64-bit wrap-around |
| `MinHash.RowIs` | internal/services/wfts/offline/indexer/minHash.go:41-42 | a row is a times the hash plus b, first modulo 2^64 and then modulo 2^61 - 1 |
| `MinHash.ShinglesAre` | internal/services/wfts/offline/indexer/minHash.go:57-65 | a shingle is any four words in a row with one blank between them |
| `MinHash.JoinIsInjective` | internal/services/wfts/offline/indexer/minHash.go:62 | words without blanks are determined by the joined text |
| `MinHash.SignatureIsUnique` | internal/services/wfts/offline/indexer/minHash.go:31-49 | the signature depends only on that set, not on order or repetition |
| `MinHash.SignatureOfUnion` | internal/services/wfts/offline/indexer/minHash.go:38-47 | the signature of a union of shingle sets is the pointwise minimum |
| `MinHash.GetWordNGrams` | internal/services/wfts/offline/indexer/minHash.go:57-65 | exactly the runs of four words |
| `NearDuplicates.MakeShingleKey` | internal/repository/shingleRepo.go:108-114 | the 16-bit sum never wraps, and the key is below 512 |
| `NearDuplicates.KeyIsTotal` | internal/repository/shingleRepo.go:108-114 | it is the sum of the rows of the band modulo 512 |
| `NearDuplicates.AgreementCounts` | internal/services/wfts/offline/indexer/wordHandling.go:217-231 | the rows counted are those with equal values |
| `NearDuplicates.BandsMakeUp` | internal/repository/shingleRepo.go:25-40 | each row is in one band, at its place, and the bands determine the signature |
| `NearDuplicates.FlatAt` | internal/repository/shingleRepo.go:25-40 | a file is a row of records of 136 words, the band before the signature |
| `NearDuplicates.CloseSharesBand` | internal/repository/shingleRepo.go:25-40 | signatures that agree in at least 113 of 128 rows share an aligned band of 8 |
| `NearDuplicates.BoundIsSharp` | internal/repository/shingleRepo.go:25-40 | two signatures agree in 112 rows and share no band |
| `NearDuplicates.MatchingFinds` | internal/repository/shingleRepo.go:57-75 | the records a scan collects are exactly those of the band looked for |
| `NearDuplicates.ScanChunk` | internal/repository/shingleRepo.go:57-75 | reading a file of records from start to end collects those records' signatures |
| `NearDuplicates.ShingleIndex.IndexDocShingles` | internal/repository/shingleRepo.go:25-41 | files every band of the signature, and nothing else |
| `NearDuplicates.ShingleIndex.GetSimilarSigns` | internal/repository/shingleRepo.go:43-78 | returns exactly the stored signatures that share an aligned band |
| `NearDuplicates.CalcSim` | internal/services/wfts/offline/indexer/wordHandling.go:217-231 | the highest share of equal rows over the candidates |
| `NearDuplicates.CheckDocument` | internal/services/wfts/offline/indexer/wordHandling.go:55-69 | keeps that no two stored signatures agree in 113 rows; a page is rejected exactly if a stored one that shares a band with it agrees in at least 103 rows, and always if one agrees in 113 |
| `NearDuplicates.CheckDocuments` | internal/services/wfts/offline/indexer/wordHandling.go:55-69 | whatever pages are checked one after the other on a new index, no two that were stored agree in 113 rows |
| `Trigrams.PackingRoundTrip` | internal/repository/nGramRepo.go:49-57 | id and last letter come back from 32 bits if and only if the id is below 2^24 |
| `Trigrams.EntryIsSplit` | internal/repository/nGramRepo.go:49-57 | the letter is the low byte of an entry, the id what is above |
| `Trigrams.KeysAreInOrder` | internal/repository/nGramRepo.go:41-47 | the keys number the pairs of letters from aa, 0, to zz, 675, in alphabetical order |
| `Trigrams.TrigramIsPart` | internal/repository/nGramRepo.go:175-191 | the trigrams of a word are its parts of three letters |
| `Trigrams.TGramsInOrder` | internal/repository/nGramRepo.go:175-191 | they are listed in the order they first appear |
| `Trigrams.KeyIsInjective` | internal/repository/nGramRepo.go:41-47 | over a to z, key and last letter determine the trigram |
| `Trigrams.ExtractTGrams` | internal/repository/nGramRepo.go:175-191 | each trigram of the word once, in the order they first appear |
| `Trigrams.ExtractTGramsByBGram` | internal/repository/nGramRepo.go:193-207 | the last letters of the word's trigrams, under the keys of their first two |
| `Trigrams.ScanPostings` | internal/repository/nGramRepo.go:117-138 | adds the ids in a file that have one of the letters, each once |
| `Trigrams.NGramIndex.Alloc` | internal/repository/indexRepos.go:302-341 | a known word keeps its id; a new one gets an id no other word has |
| `Trigrams.NGramIndex.IndexTriGrams` | internal/repository/nGramRepo.go:59-102 | indexes exactly the words of two letters and more; known words keep their ids, and the files hold exactly the postings of the indexed words |
| `Trigrams.NGramIndex.GetWordsFromSeq` | internal/repository/nGramRepo.go:144-157 | resolves ids of indexed words without the invalid-id error |
| `Trigrams.NGramIndex.GetWordsByTGrams` | internal/repository/nGramRepo.go:104-142 | exactly the indexed words that share a trigram with the query, each once |
| `WordIds.StepKeepsSafe` | internal/repository/indexRepos.go:302-341 | every step of every worker and client keeps store, caches and replies consistent, and the files exactly what was filed |
| `WordIds.ShardIsFirstLetter` | internal/repository/nGramRepo.go:66-67 | two words go to the same worker if and only if they begin with the same letter |
| `WordIds.ExecutionIsSafe` | internal/repository/indexRepos.go:302-341 | so it is at every moment of every interleaving of the 26 workers and any clients |
| `WordIds.AnswersAreRight` | internal/repository/indexRepos.go:302-341 | at every moment no word is granted twice, and cached ids are the stored ones |
| `WordIds.QuiescentStoreIsMutual` | internal/repository/indexRepos.go:317-333 | between requests the two directions of the store are inverse, and each word new in this session was granted exactly once |
| `WordIds.EntriesResolve` | internal/repository/nGramRepo.go:79-142 | an entry read from a file at one moment resolves at every later one, to a word with the trigram it was filed under, whatever workers and clients do meanwhile |
| `WordIds.FilesAreExactAtRest` | internal/repository/nGramRepo.go:59-102 | once all requests are answered and all postings written, in any interleaving, the files hold exactly the postings of the stored words |
| `WordIds.LookUpAtRest` | internal/repository/nGramRepo.go:104-142 | then a lookup returns exactly the stored words that share a trigram with the query, each once |
| `PrefixScan.PrefixUpperBound` | internal/repository/indexRepos.go:208-218 | a key lies between prefix and bound if and only if it starts with the prefix; no bound for a prefix of 0xFF bytes only |
| `PrefixScan.HexRoundTrip` | internal/repository/indexRepos.go:191 | the hexadecimal form of a document id decodes to it |
| `PrefixScan.HexAt` | internal/repository/indexRepos.go:154 | it has two lower-case digits for each byte, the high one first |
| `PrefixScan.KeyIsInjective` | internal/repository/indexRepos.go:154 | a posting key determines word and document |
| `PrefixScan.PrefixOfKey` | internal/repository/indexRepos.go:179-183 | a posting key starts with a word's prefix exactly if it is the word's, or its word goes on with an underscore |
| `PrefixScan.PostingStore.constructor` | internal/repository/indexRepos.go:37-102 | a new store has no postings |
| `PrefixScan.PostingStore.IndexDocumentWords` | internal/repository/indexRepos.go:138-175 | sets count and first 500 positions for each word of the document whose serialised form is at most 1 MiB, and nothing else |
| `PrefixScan.PostingStore.GetDocumentsByWord` | internal/repository/indexRepos.go:177-206 | an error exactly if a stored word goes on behind this one with an underscore; otherwise exactly the documents stored under the word, with what is kept for them |
| `PrefixScan.PostingStore.LookUpIndexed` | internal/repository/indexRepos.go:138-206 | a lookup after indexing, unless it is an error, gives for the document the count of the word and its positions, or the first 500 of them, if their serialised form is at most 1 MiB; what it gives for other documents, or for words the document does not have, is as before |
| `PrefixScan.UnderscoreHidesUnderscore` | internal/repository/indexRepos.go:177-206 | a document with the word "__" makes the lookup of "_" an error |
| `PositionCodec.RoundTrip` | internal/repository/indexRepos.go:246-252 | tag and position come back if and only if the tag is 0 or 1 and the position below 2^31 |
| `PositionCodec.TagsAreLost` | internal/repository/indexRepos.go:246-252 | the tags in use come back as 0, with a changed position |
| `PositionCodec.MarshalWCP` | internal/repository/indexRepos.go:220-228 | writing into the buffer in place gives the record |
| `PositionCodec.UnmarshalWCP` | internal/repository/indexRepos.go:230-244 | reads a record, or finds it too short, or panics behind its end |
| `PositionCodec.WhatComesBack` | internal/repository/indexRepos.go:220-244 | for any count and positions: the count comes back modulo 2^16, with that many positions up to 500, those written and behind them zeros; reading panics exactly if that is more than twice as many as were written |
| `PositionCodec.RecordRoundTrip` | internal/repository/indexRepos.go:220-252 | a record is read as it was written if and only if the count is below 2^16 and is the number of positions, or above 500 with 500 of them, and each position comes back |
| `PositionCodec.IndexedComesBack` | internal/repository/indexRepos.go:138-252 | what is indexed is never too large to be stored and is read without an error; the count is right if and only if it is below 2^16 |
| `Tokenizer.SelectEntities` | internal/services/wfts/offline/indexer/textHandling/tokenizer.go:112-126 | chosen spans are candidates, in order and disjoint; every candidate overlaps one; of those that begin together the shortest |
| `Tokenizer.FragmentTokenize` | internal/services/wfts/offline/indexer/textHandling/tokenizer.go:147-194 | exactly the maximal runs of one type other than white space, with their byte positions; words are all letters a to z, no other token has one, and each letter is in a token |
| `Tokenizer.TokensAreTyped` | internal/services/wfts/offline/indexer/textHandling/tokenizer.go:75-89 | which characters are in words, numbers, symbols and tokens of unknown type |
| `Tokenizer.OnlySpaceIsLeft` | internal/services/wfts/offline/indexer/textHandling/tokenizer.go:147-194 | a character is in no token exactly if it is white space and neither letter nor digit |
| `Tokenizer.LengthsAddUp` | internal/services/wfts/offline/indexer/textHandling/tokenizer.go:147-194 | byte lengths of texts add up |
| `Tokenizer.RunsAreDetermined` | internal/services/wfts/offline/indexer/textHandling/tokenizer.go:147-194 | a fragment has only one sequence of tokens that are its runs, so what the loop returns is fully determined |
| `Tokenizer.EntityTokenize` | internal/services/wfts/offline/indexer/textHandling/tokenizer.go:91-145 | tokens in order and disjoint, one for each chosen span, the others maximal runs between chosen spans, only white space left over |
| `Tokenizer.TokensRebuildText` | internal/services/wfts/offline/indexer/textHandling/tokenizer.go:91-145 | tokens and gaps put together are the text, up to case, and each token is as long as its positions say |
| `Crawl.StepLowersMeasure` | internal/services/wfts/offline/scraper/scraper.go:217-250 | every step lowers, lexicographically, unvisited pages, sum of the labels, queued tasks |
| `Crawl.ExpansionRequeues` | internal/services/wfts/offline/scraper/scraper.go:271-289 | an expansion takes its task from the queue, adds one for each link submitted, one level deeper, and puts the task back if it was canceled |
| `Crawl.StepKeepsCorrect` | internal/services/wfts/offline/scraper/scraper.go:217-289 | every step keeps: a label is the least depth looked up for the page and the length of a real link path from a seed |
| `Crawl.WalkIsCorrect` | internal/services/wfts/offline/scraper/scraper.go:189-291 | so it is after every walk, in any order of execution |
| `Crawl.LabelsFallAlong` | internal/services/wfts/offline/scraper/scraper.go:218-222 | a visited page stays visited and its label never rises, over any stretch of a walk |
| `Crawl.RetryIsSeen` | internal/services/wfts/offline/scraper/scraper.go:221-222 | a page that was expanded is not expanded again at that depth or below, so the retry of a canceled task follows no link |
| `Crawl.LabelsAreShownDistances` | internal/services/wfts/offline/scraper/scraper.go:217-289 | at the end of a walk without faults, in any order, labels are distances in the graph of the links that were followed |
| `Crawl.LabelsAreDistances` | internal/services/wfts/offline/scraper/htmlHandling.go:178-184 | they are distances in the whole graph if and only if each path has one no longer among the links followed, and if and only if each link leads at most one label up |
| `Crawl.OnceGivesDistances` | internal/services/wfts/offline/scraper/htmlHandling.go:178-184 | if no page is expanded twice, they are distances in the whole graph, whatever links were dropped |
| `Crawl.DepthOrderGivesDistances` | internal/services/wfts/offline/scraper/scraper.go:217-289 | so they are if tasks are taken in order of depth |
| `Crawl.DroppedLinkIsMissed` | internal/services/wfts/offline/scraper/htmlHandling.go:178-184 | over any four different pages there is a graph and a walk without faults that ends with label 2 on a page one link from a seed |
| `Crawler.Crawler.Scrape` | internal/services/wfts/offline/scraper/scraper.go:189-291 | executing a task is one such step, whatever the world answers. A new page that is not fetched, not indexed, or whose links cannot be kept submits and keeps nothing and is an error; otherwise those of its links are kept that do not lead back to pages labelled lower. A known page takes its links from the cache, else from the store, else it is an error. Of these links exactly those that may be followed are submitted, up to where the context ended, and the task goes back to the queue exactly if that cut some off |
| `Crawler.Crawler.Parse` | internal/services/wfts/offline/scraper/htmlHandling.go:178-187 | exactly the links whose page has no label or one that is not lower |
| `Crawler.Crawler.Fetch` | internal/services/wfts/offline/scraper/scraper.go:243-268 | a new page gives its links that do not lead back to pages labelled lower; it fails, and keeps nothing, exactly if it is not fetched or not indexed, or has such links and they cannot be saved |
| `Crawler.Crawler.Load` | internal/services/wfts/offline/scraper/scraper.go:226-241 | a page visited before gives the links of then, from the cache or else from the store, or fails |
| `Crawler.Crawler.SubmitLinks` | internal/services/wfts/offline/scraper/scraper.go:271-289 | submits exactly the links that may be followed, one level deeper, up to where the context ended; canceled exactly if some are missing |
| `Crawler.Crawler.Crawl` | internal/services/wfts/offline/scraper/scraper.go:131-158 | the walk ends, whatever task is taken next, with correct labels |
| `Crawler.Crawler.CrawlFaultless` | internal/services/wfts/offline/scraper/scraper.go:131-158 | in a world where every page is fetched, indexed and kept and shows the same links, whatever task is taken next and whatever the cache forgets, the crawl is a walk without faults, with the conditions above for its labels |
| `LabelRace.LabelsFallUnlessTasksOverlap` | internal/services/wfts/offline/scraper/scraper.go:221-225 | the label rises in no run of the tasks for a page, if and only if no two of them differ in depth and may both find a label above theirs: the one the page has, or, if it has none, the depth of a third task |
| `LabelRace.OverlapRaises` | internal/services/wfts/offline/scraper/scraper.go:221-225 | any two tasks of different depths below the label have a run that sets it to the smaller and then to the greater depth |
| `LabelRace.OverlapRaisesNew` | internal/services/wfts/offline/scraper/scraper.go:221-225 | so have they on a page without a label, after a third task of a still greater depth |

## Left out

- HTTP, HTML and XML, character sets, robots rules, logging, configuration, rate limiting and timers are not part of this model.
- Pebble, gob, JSON, regular expressions and FNV: an ordered map, serialisation that succeeds and whose records do not decode when they are cut, a list of candidate spans, and an uninterpreted hash.
- File faults, crashes, and the saved id counter across restarts; each push and pop of the stack is atomic, although `workerPool.go:109` pushes outside the mutex.
- Stop, its backup of the heap, and Submits after it: sends on the closed channel panic, and workers may quit early. A token channel of capacity 0 is not covered by the balance.
- Liveness: the scheduler's proofs say what holds whenever a goroutine gets its turn, not that it gets one.
- Shared mutation of cached link tokens (`scraper.go:226-227,280-286`), which can change the priority of a task that is in the heap: tasks are values.
- Floating point: priorities and scores are real numbers, how the crawler computes the priority of a link is left out, and the logarithm of the split score is a parameter.
- Pool.Pool.Interfere: stands for any number of steps of other goroutines; its contract says no more than that these are theirs, its own body takes none, and it does not return if one of them ends the process.
- WordIds: the counter does not wrap at 2^32, and the cache may evict at any time; storage faults, after which a worker stops, are left out.
- Trigrams.NGramIndex.Alloc: is sequential here, and without the cache; the interleaving of workers and clients is in `WordIds`.
- Trigrams.NGramIndex.GetWordsByTGrams: for words over a to z and ids below 2^24, as the packing needs; the order of the result follows map iteration and is not stated.
- NearDuplicates.CheckDocument: pages are checked one after the other, and writes have reached the files before the next lookup.
- SpellChecker.BestReplacement: scores are real numbers, the lowest of which stands for the start value, and the logarithm is assumed to stay above it from the floor of 0.00001 on.
- Tokenizer.EntityTokenize: assumes lower case that keeps lengths; candidate spans are non-empty and inside the text, and the stable sort is a function, an insertion sort.
- Proximity.MinQueryDistInDoc: the wrap-around of spans beyond 64 bits is not modelled.
- Crawler.Crawler.Scrape: a task is one atomic step. A context that has ended before the lookup leaves everything as it was, so this is no step. Labels and links saved in an earlier session are not loaded.
- Crawl.LabelsFallAlong: takes lookup and lowering of a label as one access; without that it fails, and `LabelRace` states exactly for which tasks.
- Crawl.LabelsAreDistances: is about walks in which nothing fails, nothing is cut short and no task is refused by the scheduler.
- Trigrams.NGramIndex.IndexTriGrams: words are over a to z, which the original assumes too (`nGramRepo.go:174`), and ids stay below 2^24.
- PrefixScan.PostingStore.GetDocumentsByWord: the values come back as they were stored; what their codec makes of them is in `PositionCodec`.
- PrefixScan.PostingStore.LookUpIndexed: takes the size of the serialised form as a parameter, and the codec as the identity, which it is not for all values; `PositionCodec` states for which it is.
- The URL matcher (`boyerMoorAlgorithm`), the stemmer are not part of this model.
- BM25, TF-IDF and the regression: formulas of floating-point arithmetic without a property beyond themselves.
- Bigram counters and URL normalisation: a counter for each pair and a rewriting of strings, which no other part here relies on.
