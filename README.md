# EchoTree prediction trees and their typing-performance evaluator, in Dafny

EchoTree shows a typist a small tree of the words most likely to come next. It has
two parts, and this project models both.

**Word explorer.** A `WordExplorer` asks an n-gram co-occurrence store for the
followers of a word, sorted by decreasing probability, and keeps them in a per-word
cache. `makeWordTree` grows a bounded tree of `{word, followWordObjs}` nodes from
those followers. The defaults are depth 3 and breadth 5.

**Evaluator.** The evaluator replays sentences that a tokenizer wrote into token
files. For each sentence:

- it cleans the token list in place;
- it looks every word up in the tree grown from the word typed before it;
- it records failures and the depth of each hit in a `SentencePerformance` record.

The records are then summarised as CSV cells and as a mean depth-weighted score.

## Modules

| file | module | contents |
|---|---|---|
| `wrappers.dfy` | `Wrappers` | `Option`, and `Result`, which stands for a value or the Python exception raised instead |
| `text.dfy` | `Text` | the Python string operations the core uses: `split(sep)`, `sep.join`, argument-less `split()`, ASCII `lower()`, `str(n)` |
| `echo_tree.dfy` | `EchoTree` | the store, `WordFollower`, the tree datatype, the specification `BuildTree`, and the class `WordExplorer` |
| `echo_tree_facts.dfy` | `TreeFacts` | what built trees look like: their shape, the depth, breadth and node budgets, the bigram trees that hold no bare strings, and the cache that ignores the arity |
| `performance.dfy` | `Performance` | the `SentencePerformance` class, the depth histogram, the net-success and depth-weighted scores, and the CSV row |
| `tree_query.dfy` | `TreeQuery` | the evaluator's walks over a tree: the flattened label string, the word set, the depth search, and the word-sequence regrouping |
| `evaluation.dfy` | `Evaluation` | the token cleanup, the character-stream sentence reader, `checksum`, the replay loop, the CSV header and rows, the mean score, and `measurePerformance` |

**How the entities are modelled**

- *The co-occurrence store* is a value, `Database`. It answers each first word with
  either the ordered follower list or `None`, which stands for a failing SELECT.
- *`WordExplorer`* is a class with a `map` field for the cache.
- *`makeWordTree`* is a recursive method. It is proved equal to the ghost function
  `BuildTree`, evaluated on the cache as it was when the call began. The cache only
  gains entries that the store agrees with (`Agrees`), so trees built later in the
  recursion are the ones the entry cache would give.
- *Tree nodes* are `Node(word, follow)`. A follow entry is either a subtree or a
  `Bare` string. Trigram trees keep the second word of a follower tuple as a `Bare`
  string in front of the subtrees.
- *`SentencePerformance`*, *`Evaluator`*, the token list that `tallyWordCapture`
  edits, and the file that `readSentence` reads are all classes whose methods change
  their fields.
- *Scores* are exact reals.

## Model

Paths are relative to the repository root.

| member | source | states |
|---|---|---|
| `Text.SplitOn` | src/echo_tree_experiment/Evaluation/echo_tree_eval.py:227 | `s.split(sep)` yields at least one piece, and no piece holds the separator |
| `Text.SplitOnPlain` | src/echo_tree_experiment/Evaluation/echo_tree_eval.py:227 | a string without the separator splits into itself alone |
| `Text.SplitOnConcat` | src/echo_tree_experiment/Evaluation/echo_tree_eval.py:227 | splitting `a + sep + b` gives the pieces of `a` followed by the pieces of `b` |
| `Text.SplitJoin` | src/echo_tree_experiment/Evaluation/echo_tree_eval.py:211-214 | splitting a join of separator-free pieces gives back those pieces |
| `Text.JoinSplit` | src/echo_tree_experiment/Evaluation/echo_tree_eval.py:575 | joining the pieces of a split gives back the original string |
| `Text.JoinAppend` | src/echo_tree_experiment/Evaluation/echo_tree_eval.py:212-214 | adding one piece at the end of a join appends the separator and that piece, as each `header += ','+...` step does |
| `Text.Fields` | src/echo_tree_experiment/Evaluation/echo_tree_eval.py:307 | every piece of the argument-less `split()` is non-empty |
| `Text.FieldsOfWord` | src/echo_tree_experiment/Evaluation/echo_tree_eval.py:263 | a non-empty label without whitespace has itself as its only field |
| `Text.FieldsWordThen` | src/echo_tree_experiment/Evaluation/echo_tree_eval.py:307 | a whitespace-free word followed by nothing or by whitespace is the first field of `split()`, and the rest splits on its own |
| `Text.NatToString` | src/echo_tree_experiment/Evaluation/echo_tree_eval.py:212-213 | `str(n)` is one or more decimal digits |
| `EchoTree.SinglesSpec` | src/echo_tree_experiment/echo_tree.py:80-81 | a bigram answer has one one-word row per follower, in store order |
| `EchoTree.PairsSpec` | src/echo_tree_experiment/echo_tree.py:82-83 | a trigram answer has one two-word row per follower pair, in store order |
| `EchoTree.WordFollowerSpec` | src/echo_tree_experiment/echo_tree.py:79-87 | only arities 2 and 3 succeed, and any other arity is `ValueError`. A failing SELECT is `ValueError`. Otherwise each row holds `arity - 1` words, one row per listed follower, in store order |
| `EchoTree.LookupShaped` | src/echo_tree_experiment/echo_tree.py:140-148 | every answer of a well-formed cache or of the store has a first word in each row |
| `EchoTree.Take` | src/echo_tree_experiment/echo_tree.py:198-204 | the follower loop pursues `min(max(maxBranch, 0), #followers)` followers, so none when `maxBranch <= 0` |
| `EchoTree.BuildTreeRoot` | src/echo_tree_experiment/echo_tree.py:179-192 | the unchanged `wordTree` argument comes back exactly when `maxDepth <= 0`. Any tree built is labelled with the seed's first word |
| `EchoTree.BuildTreeLeaf` | src/echo_tree_experiment/echo_tree.py:187-196 | a node with `1 + len(wordArr[1:]) >= maxDepth` is not expanded: it holds its label and its leftover words as bare strings |
| `EchoTree.BuildTreeExpanded` | src/echo_tree_experiment/echo_tree.py:195-214 | an expanded node looks up the seed's last word, and a failing lookup fails the tree. Otherwise the node holds its leftover words, then the subtrees of the first `Take(maxBranch, n)` followers |
| `EchoTree.LookupAgrees` | src/echo_tree_experiment/echo_tree.py:140-148 | a cache grown only with store-consistent entries answers every lookup as before |
| `EchoTree.AgreesTrans` | src/echo_tree_experiment/echo_tree.py:140-148 | store-consistent cache growth composes |
| `EchoTree.BuildTreeAgrees` | src/echo_tree_experiment/echo_tree.py:152-214 | the tree built is the same under any store-consistent growth of the cache |
| `EchoTree.BuildChildrenAgrees` | src/echo_tree_experiment/echo_tree.py:198-213 | the subtrees of the follower loop are the same under any store-consistent growth of the cache |
| `EchoTree.ChildrenSnoc` | src/echo_tree_experiment/echo_tree.py:205-213 | one more follower either fails the loop, adds nothing for an empty subtree, or appends its subtree |
| `EchoTree.ChildStep` | src/echo_tree_experiment/echo_tree.py:198-213 | a subtree built under the cache grown so far extends the loop's result under the entry cache |
| `EchoTree.TreeStep` | src/echo_tree_experiment/echo_tree.py:195-214 | followers looked up under the entry cache, with subtrees built under the grown cache, give the tree that the entry cache specifies |
| `EchoTree.ChildrenFailureSticks` | src/echo_tree_experiment/echo_tree.py:198-207 | once a follower's lookup fails, every longer prefix of the loop fails with the same error |
| `EchoTree.WordExplorer.constructor` | src/echo_tree_experiment/echo_tree.py:118-125 | a new explorer has an empty cache in front of the given store |
| `EchoTree.WordExplorer.GetSortedFollowers` | src/echo_tree_experiment/echo_tree.py:127-149 | a cache hit returns the stored list and leaves the cache alone. A miss asks the store once and stores the complete answer under `word`, changing no other entry. A failing query raises and leaves the cache unchanged |
| `EchoTree.WordExplorer.MakeWordTree` | src/echo_tree_experiment/echo_tree.py:152-214 | the result is `BuildTree` on the cache at entry, with `maxBranch` at the top and the default breadth below. The cache only gains store-consistent entries |
| `EchoTree.WordExplorer.FollowTrees` | src/echo_tree_experiment/echo_tree.py:198-213 | the follower loop yields the subtrees of the first `Take(maxBranch, n)` followers, in store order, each one level shallower |
| `TreeFacts.SubsBares` | src/echo_tree_experiment/echo_tree.py:192 | the leftover words in front of the subtrees count as no subtree |
| `TreeFacts.BoundedHeight` | src/echo_tree_experiment/echo_tree.py:195 | a tree within a depth budget has at most that many levels |
| `TreeFacts.BoundedSize` | src/echo_tree_experiment/echo_tree.py:195-204 | a tree within the budget has at most `MaxNodes(depth, branch)` nodes |
| `TreeFacts.NodeBounded` | src/echo_tree_experiment/echo_tree.py:191-213 | a node over bare words and at most `branch` subtrees, each within one level less, keeps the budget |
| `TreeFacts.BuildTreeBounded` | src/echo_tree_experiment/echo_tree.py:195-207 | every built tree keeps the budget: `maxDepth` levels, at most `maxBranch` subtrees under the root, and at most `WORD_TREE_BREADTH` under every other node |
| `TreeFacts.ExpandedBounded` | src/echo_tree_experiment/echo_tree.py:195-213 | the same budget, for an expanded node |
| `TreeFacts.PickedBounded` | src/echo_tree_experiment/echo_tree.py:198-204 | the loop stops after at most `maxBranch` subtrees, each within one level less |
| `TreeFacts.BuildChildrenBounded` | src/echo_tree_experiment/echo_tree.py:205-213 | every subtree the loop appends keeps the default breadth and one level less |
| `TreeFacts.DefaultTreeBounds` | src/echo_tree_experiment/echo_tree.py:152-214 | with depth 3 and breadth 5 a tree has at most 3 levels (deepest node at depth 2) and at most 1 + 5 + 25 nodes |
| `TreeFacts.ChildrenSucceed` | src/echo_tree_experiment/echo_tree.py:198-213 | the follower loop succeeds exactly when every follower's subtree does |
| `TreeFacts.ChildrenAreSubtrees` | src/echo_tree_experiment/echo_tree.py:207-213 | with depth at least 1, each follower gives exactly one subtree, labelled with the follower's first word, so the filter of empty subtrees never drops a child |
| `TreeFacts.TreeShape` | src/echo_tree_experiment/echo_tree.py:181-213 | a built node has its seed's first word as label and its leftover words first. It is expanded exactly when `1 + #leftover < maxDepth`, and then holds one subtree per follower of the last word, up to the branch limit, in store order |
| `TreeFacts.BigramLookup` | src/echo_tree_experiment/echo_tree.py:80-81 | a bigram lookup in a cache of one-word rows gives one-word rows |
| `TreeFacts.AgreesBigram` | src/echo_tree_experiment/echo_tree.py:140-148 | a cache grown by bigram lookups only holds one-word rows |
| `TreeFacts.BigramTreePlain` | src/echo_tree_experiment/echo_tree.py:191-192 | a bigram tree grown from one word holds no bare string anywhere |
| `TreeFacts.BigramChildrenPlain` | src/echo_tree_experiment/echo_tree.py:198-213 | the subtrees of a bigram follower loop hold no bare strings |
| `TreeFacts.CachedIgnoresArity` | src/echo_tree_experiment/echo_tree.py:140-141 | the cache is keyed by the word alone: a hit gives the same answer under every arity |
| `TreeFacts.StaleAcrossArity` | src/echo_tree_experiment/echo_tree.py:140-148 | after a trigram lookup has filled the cache, a bigram lookup of the same word gives the trigram rows, not the store's bigram answer |
| `TreeFacts.SampleTrees` | src/echo_tree_experiment/echo_tree.py:152-214 | on a two-word store the default tree of "a" is "a" over a childless "b". A word the store cannot select fails the whole tree |
| `Performance.RecordedCount` | src/echo_tree_experiment/Evaluation/echo_tree_eval.py:71-81 | recording a depth raises that depth's count by one and no other count; a first hit starts the count at 1 |
| `Performance.Half` | src/echo_tree_experiment/Evaluation/echo_tree_eval.py:118 | `0.5 ** n` lies in (0, 1] |
| `Performance.DeepestDepth` | src/echo_tree_experiment/Evaluation/echo_tree_eval.py:149-154 | the largest recorded depth, or 0 for an empty histogram |
| `Performance.IgnoredDepths` | src/echo_tree_experiment/Evaluation/echo_tree_eval.py:117-118 | words found at depth 0 or at `WORD_TREE_DEPTH` and beyond do not change the score |
| `Performance.WeightedSumBounds` | src/echo_tree_experiment/Evaluation/echo_tree_eval.py:115-118 | the weighted sum lies between 0 and the number of words found at the scored depths |
| `Performance.ScoreInUnitInterval` | src/echo_tree_experiment/Evaluation/echo_tree_eval.py:102-122 | when at most `sentenceLen - 1` words were found at the scored depths, the depth-weighted score is defined and lies in [0, 1] |
| `Performance.ScoreClosedForm` | src/echo_tree_experiment/Evaluation/echo_tree_eval.py:115-122 | for any length other than 1, the score is `(count(1) + count(2) / 2) / (sentenceLen - 1)` |
| `Performance.ScoreExample` | src/echo_tree_experiment/Evaluation/echo_tree_eval.py:102-122 | an illustration of `ScoreClosedForm`: four words, one hit at depth 1 and one at depth 2, score 0.5 |
| `Performance.NetSuccessBounds` | src/echo_tree_experiment/Evaluation/echo_tree_eval.py:93-100 | net success is a percentage. It is 100 with no net failure and 0 when every prediction failed |
| `Performance.DepthCellsSpec` | src/echo_tree_experiment/Evaluation/echo_tree_eval.py:175-176 | the depth columns are `count(1)` .. `count(k)`, with 0 for a depth never recorded |
| `Performance.SentencePerformance.constructor` | src/echo_tree_experiment/Evaluation/echo_tree_eval.py:45-53 | a new record has the given IDs and token count, zero counters and an empty histogram |
| `Performance.SentencePerformance.AddFailure` | src/echo_tree_experiment/Evaluation/echo_tree_eval.py:55-60 | `failures` goes up by one and nothing else changes |
| `Performance.SentencePerformance.AddOutOfSeq` | src/echo_tree_experiment/Evaluation/echo_tree_eval.py:62-69 | `outOfSeqs` goes up by one and nothing else changes |
| `Performance.SentencePerformance.AddWordDepth` | src/echo_tree_experiment/Evaluation/echo_tree_eval.py:71-81 | the histogram records one more word at `depth` and nothing else changes |
| `Performance.SentencePerformance.DepthWeightedSuccess` | src/echo_tree_experiment/Evaluation/echo_tree_eval.py:102-122 | the loop's sum over depths 1 to `WORD_TREE_DEPTH - 1`, divided by `sentenceLen - 1`, is `DepthWeighted`, which fails for a one-word sentence |
| `Performance.SentencePerformance.ToCSV` | src/echo_tree_experiment/Evaluation/echo_tree_eval.py:167-178 | the row built cell by cell is `Row` on the run's deepest depth |
| `Performance.RowShape` | src/echo_tree_experiment/Evaluation/echo_tree_eval.py:167-178 | a row fails exactly for a one-word sentence. Otherwise it has `8 + maxDepth` fields: the email and sentence IDs, the counters, net failure, net success, the depth counts, and the weighted score last |
| `TreeQuery.ExtractWordSeqsHelper` | src/echo_tree_experiment/Evaluation/echo_tree_eval.py:390-397 | the flattened string holds every label of the tree in preorder, each preceded by a space |
| `TreeQuery.SpacedWordsIsJoin` | src/echo_tree_experiment/Evaluation/echo_tree_eval.py:390-397 | the flattened string is the labels joined by spaces after an empty first piece |
| `TreeQuery.SpacedSplit` | src/echo_tree_experiment/Evaluation/echo_tree_eval.py:227 | splitting the flattened string on `' '` gives an empty piece, then the labels |
| `TreeQuery.ExtractWordSet` | src/echo_tree_experiment/Evaluation/echo_tree_eval.py:224-231 | the lowering loop and the split into first piece and set give `WordSet` |
| `TreeQuery.WordSetRootEmpty` | src/echo_tree_experiment/Evaluation/echo_tree_eval.py:229 | the "root word" `extractWordSet` returns is always the empty string |
| `TreeQuery.WordSetQuirks` | src/echo_tree_experiment/Evaluation/echo_tree_eval.py:224-231 | the "root word" is empty, and the set is every lowered label, the root's included |
| `TreeQuery.SeqMin` | src/echo_tree_experiment/Evaluation/echo_tree_eval.py:249 | `min` of a non-empty list is an element no greater than any other |
| `TreeQuery.DepthList.constructor` | src/echo_tree_experiment/Evaluation/echo_tree_eval.py:246 | the result list starts empty |
| `TreeQuery.DepthList.Append` | src/echo_tree_experiment/Evaluation/echo_tree_eval.py:264 | `append` adds one depth at the end |
| `TreeQuery.SearchNode` | src/echo_tree_experiment/Evaluation/echo_tree_eval.py:253-272 | a matching node appends its own depth and stops. Otherwise every subtree is searched in order, since the helper's return value is always `None` |
| `TreeQuery.GetDepthFromWordHelper` | src/echo_tree_experiment/Evaluation/echo_tree_eval.py:253-255 | a missing tree appends nothing |
| `TreeQuery.GetDepthFromWord` | src/echo_tree_experiment/Evaluation/echo_tree_eval.py:233-251 | the least depth appended by the walk from the root at depth 0, or `None` when nothing was appended |
| `TreeQuery.MatchesSound` | src/echo_tree_experiment/Evaluation/echo_tree_eval.py:263-270 | every depth appended belongs to a node whose whitespace-split label contains the word |
| `TreeQuery.MatchesUpToSound` | src/echo_tree_experiment/Evaluation/echo_tree_eval.py:267-270 | depths appended below a node are deeper than the node and belong to matching nodes |
| `TreeQuery.MatchesUpToContains` | src/echo_tree_experiment/Evaluation/echo_tree_eval.py:267-271 | the walk over the subtrees keeps everything an earlier subtree appended |
| `TreeQuery.MatchesComplete` | src/echo_tree_experiment/Evaluation/echo_tree_eval.py:263-272 | every matching node is matched by the walk at that node or above it |
| `TreeQuery.DepthOfIsLeast` | src/echo_tree_experiment/Evaluation/echo_tree_eval.py:233-272 | `getDepthFromWord` is the least depth of a node whose label contains the word, case-sensitively, and `None` exactly when there is no such node |
| `TreeQuery.FoundNoDeeper` | src/echo_tree_experiment/Evaluation/echo_tree_eval.py:246-251 | a match at distance `d` makes the result at most `d` |
| `TreeQuery.OccursWithinBudget` | src/echo_tree_experiment/Evaluation/echo_tree_eval.py:263-268 | in a tree within a depth budget, every match lies above that depth |
| `TreeQuery.Power` | src/echo_tree_experiment/Evaluation/echo_tree_eval.py:309 | `a ** e` is positive for a positive base |
| `TreeQuery.Groups` | src/echo_tree_experiment/Evaluation/echo_tree_eval.py:312-318 | `g` pops of siblings-then-parent give `g` groups |
| `TreeQuery.WordSeqsFails` | src/echo_tree_experiment/Evaluation/echo_tree_eval.py:305-319 | `extractWordSeqs` fails exactly when the tree has fewer than 30 words. Otherwise it yields 5 groups after the root word |
| `TreeQuery.ExtractWordSeqs` | src/echo_tree_experiment/Evaluation/echo_tree_eval.py:285-319 | the deque pops over the whitespace-split flattened tree give `WordSeqs`, failing where Python raises |
| `TreeQuery.FieldsOfSpaced` | src/echo_tree_experiment/Evaluation/echo_tree_eval.py:307 | `split()` of the flattened string gives back the labels when every label is a whitespace-free word |
| `TreeQuery.PreorderOfLeaves` | src/echo_tree_experiment/Evaluation/echo_tree_eval.py:390-397 | the childless subtrees of a node contribute their labels in order |
| `TreeQuery.PreorderOfFamilies` | src/echo_tree_experiment/Evaluation/echo_tree_eval.py:390-397 | in a full default tree each level-1 node is followed by its five children, six words per family, in depth-first order |
| `TreeQuery.GroupsOfFull` | src/echo_tree_experiment/Evaluation/echo_tree_eval.py:310-318 | on a full default tree's words the `g`-th pop takes the `g`-th level-1 node from the back, its children last first |
| `TreeQuery.FullTreeWordSeqs` | src/echo_tree_experiment/Evaluation/echo_tree_eval.py:286-319 | on a full default tree of whitespace-free labels, `extractWordSeqs` gives the root word and, as its docstring's example shows, the level-1 nodes from last to first, each with its children from last to first |
| `TreeQuery.GroupsHead` | src/echo_tree_experiment/Evaluation/echo_tree_eval.py:310-318 | the first group is the one popped from the back of the queue |
| `TreeQuery.FlatTreeWordSeqs` | src/echo_tree_experiment/Evaluation/echo_tree_eval.py:305-318 | the pops group by position, not by parent: a 30-word tree whose root has 29 childless children succeeds, and its first group's parent is a childless node |
| `Evaluation.RemoveFirstAt` | src/echo_tree_experiment/Evaluation/echo_tree_eval.py:430 | `remove(x)` cuts out the first occurrence and keeps everything else in order |
| `Evaluation.RemoveFirstAbsent` | src/echo_tree_experiment/Evaluation/echo_tree_eval.py:430 | removing an absent value leaves the list as it is |
| `Evaluation.TokenList.constructor` | src/echo_tree_experiment/Evaluation/echo_tree_eval.py:575 | the list holds the given tokens |
| `Evaluation.TokenList.Remove` | src/echo_tree_experiment/Evaluation/echo_tree_eval.py:430 | the list loses its first `x`. The result reports whether `x` was there, which is where `ValueError` would be raised |
| `Evaluation.ListedIn` | src/echo_tree_experiment/Evaluation/echo_tree_eval.py:432 | the stopword test is list membership |
| `Evaluation.CleanSpec` | src/echo_tree_experiment/Evaluation/echo_tree_eval.py:427-433 | the cleanup keeps exactly the tokens that are neither empty nor a removed stopword, never more than it was given |
| `Evaluation.CleanAdvance` | src/echo_tree_experiment/Evaluation/echo_tree_eval.py:428-433 | one more token grows the filter by that token unless it is dropped |
| `Evaluation.DropStep` | src/echo_tree_experiment/Evaluation/echo_tree_eval.py:429-433 | removing a dropped token by value removes the occurrence being visited |
| `Evaluation.KeepStep` | src/echo_tree_experiment/Evaluation/echo_tree_eval.py:428-433 | a kept token moves from the unvisited part into the cleaned part |
| `Evaluation.CleanTokens` | src/echo_tree_experiment/Evaluation/echo_tree_eval.py:425-433 | the caller's list ends as the order-preserving filter of empty tokens and, when asked, stopwords |
| `Evaluation.CharStream.constructor` | src/echo_tree_experiment/Evaluation/echo_tree_eval.py:567 | an opened file is read from its first character |
| `Evaluation.CharStream.Read` | src/echo_tree_experiment/Evaluation/echo_tree_eval.py:494 | `read(1)` gives the next character and advances, or `""` at end of file |
| `Evaluation.FindSpec` | src/echo_tree_experiment/Evaluation/echo_tree_eval.py:492-500 | the search reports the first occurrence of the character, and nothing exactly when there is none |
| `Evaluation.ScanSentence` | src/echo_tree_experiment/Evaluation/echo_tree_eval.py:487-516 | reading never moves backwards or past the end, and a sentence read consumes input |
| `Evaluation.ScanToCloser` | src/echo_tree_experiment/Evaluation/echo_tree_eval.py:503-516 | collecting never moves backwards or past the end, and a sentence collected consumes its `]` |
| `Evaluation.KeptSpec` | src/echo_tree_experiment/Evaluation/echo_tree_eval.py:512-516 | a sentence read holds no space and no punctuation character, and is no longer than its text |
| `Evaluation.KeptClean` | src/echo_tree_experiment/Evaluation/echo_tree_eval.py:514-516 | text without spaces and punctuation is kept unchanged |
| `Evaluation.ScanBrackets` | src/echo_tree_experiment/Evaluation/echo_tree_eval.py:487-516 | with a first `[` and the first `]` after it, the sentence is the cleaned text between them, and reading resumes after the `]` |
| `Evaluation.SkipToOpener` | src/echo_tree_experiment/Evaluation/echo_tree_eval.py:492-502 | the first loop stops just after the next `[`, or reports end of file with all input consumed |
| `Evaluation.CollectToCloser` | src/echo_tree_experiment/Evaluation/echo_tree_eval.py:503-516 | the second loop collects the kept characters up to the next `]`, or gives `None` at end of file |
| `Evaluation.ReadSentence` | src/echo_tree_experiment/Evaluation/echo_tree_eval.py:487-516 | the sentence and the new file position are `ScanSentence` on the old position |
| `Evaluation.CodeSumConcat` | src/echo_tree_experiment/Evaluation/echo_tree_eval.py:526 | the code sum adds up over concatenation |
| `Evaluation.ChecksumConcat` | src/echo_tree_experiment/Evaluation/echo_tree_eval.py:518-526 | the checksum of non-empty pieces adds up, so it does not depend on the pieces' order |
| `Evaluation.SentencesFromStep` | src/echo_tree_experiment/Evaluation/echo_tree_eval.py:568-576 | a sentence read is the next of the file's sentences |
| `Evaluation.TreeOfShape` | src/echo_tree_experiment/Evaluation/echo_tree_eval.py:446 | a grown bigram tree exists, is rooted at the typed word, holds only subtrees and keeps the default depth |
| `Evaluation.Shown` | src/echo_tree_experiment/Evaluation/echo_tree_eval.py:468 | the tree on display holds only subtrees and keeps the default budget |
| `Evaluation.ReplayUpTo` | src/echo_tree_experiment/Evaluation/echo_tree_eval.py:445-470 | a replay that succeeded so far has also grown the tree of its last word |
| `Evaluation.HitsUpToRecorded` | src/echo_tree_experiment/Evaluation/echo_tree_eval.py:78-81 | recording a depth adds one hit exactly when it is a scored depth |
| `Evaluation.CountBalanced` | src/echo_tree_experiment/Evaluation/echo_tree_eval.py:456-466 | counting a failure, or a hit within the default depth, keeps every looked-up word counted once |
| `Evaluation.ReplayBalanced` | src/echo_tree_experiment/Evaluation/echo_tree_eval.py:449-466 | after a successful replay, `failures + Σ depths[d] = sentenceLen - 1`, and every depth is below `WORD_TREE_DEPTH` |
| `Evaluation.ReplayBalancedStep` | src/echo_tree_experiment/Evaluation/echo_tree_eval.py:449-466 | the next word keeps that balance |
| `Evaluation.ReplayCounted` | src/echo_tree_experiment/Evaluation/echo_tree_eval.py:449-468 | a successful replay counts the next word against the tree of the word before it |
| `Evaluation.CountShown` | src/echo_tree_experiment/Evaluation/echo_tree_eval.py:451-466 | a lookup in a displayed tree keeps the balance, because the tree is too shallow for a deeper hit |
| `Evaluation.ReplayAdvance` | src/echo_tree_experiment/Evaluation/echo_tree_eval.py:449-470 | one more word is counted, then its own tree is grown, and a failed lookup fails the sentence |
| `Evaluation.ReplaySticks` | src/echo_tree_experiment/Evaluation/echo_tree_eval.py:446-468 | a lookup failure at any word is the failure of the whole sentence |
| `Evaluation.ReplayFailureKept` | src/echo_tree_experiment/Evaluation/echo_tree_eval.py:468 | a failed replay keeps its error after one more word |
| `Evaluation.AllSoundSnoc` | src/echo_tree_experiment/Evaluation/echo_tree_eval.py:473 | appending a sound record keeps the tally sound |
| `Evaluation.MaxDeepestSpec` | src/echo_tree_experiment/Evaluation/echo_tree_eval.py:188-196 | the run's deepest depth is never negative, bounds every record's deepest depth, and is reached when positive |
| `Evaluation.MaxDeepestBound` | src/echo_tree_experiment/Evaluation/echo_tree_eval.py:188-196 | over sound records the deepest depth stays below `WORD_TREE_DEPTH` |
| `Evaluation.ColumnsPlain` | src/echo_tree_experiment/Evaluation/echo_tree_eval.py:211-214 | no column name contains a comma |
| `Evaluation.PrefixSplits` | src/echo_tree_experiment/Evaluation/echo_tree_eval.py:211-213 | the header before its last column splits into the seven fixed names, then `Depth_1` .. `Depth_k` |
| `Evaluation.DepthNamesSpec` | src/echo_tree_experiment/Evaluation/echo_tree_eval.py:212-213 | the depth columns are numbered from 1 to `k` |
| `Evaluation.HeaderFieldsShape` | src/echo_tree_experiment/Evaluation/echo_tree_eval.py:210-215 | the header has `8 + maxDepth` columns: the fixed ones, the depth columns, and the score last |
| `Evaluation.HeaderSplits` | src/echo_tree_experiment/Evaluation/echo_tree_eval.py:210-215 | the header line splits on commas into exactly those column names |
| `Evaluation.RowsOfSpec` | src/echo_tree_experiment/Evaluation/echo_tree_eval.py:198-201 | the rows succeed exactly when no record is one word long, one row per record in tally order |
| `Evaluation.CsvShape` | src/echo_tree_experiment/Evaluation/echo_tree_eval.py:198-215 | the CSV fails exactly when some sentence has one word. Otherwise it has one row per record, each as wide as the header |
| `Evaluation.RowsOfStep` | src/echo_tree_experiment/Evaluation/echo_tree_eval.py:200-201 | one more record appends its row, or fails the listing |
| `Evaluation.RowsOfSticks` | src/echo_tree_experiment/Evaluation/echo_tree_eval.py:200-201 | a failing row fails the whole CSV with its error |
| `Evaluation.ScoreSumStep` | src/echo_tree_experiment/Evaluation/echo_tree_eval.py:589-590 | one more record adds its weighted score, or fails the sum |
| `Evaluation.ScoreSumSticks` | src/echo_tree_experiment/Evaluation/echo_tree_eval.py:589-590 | a failing score fails the whole sum |
| `Evaluation.ScoreSumBounds` | src/echo_tree_experiment/Evaluation/echo_tree_eval.py:587-590 | over sound records of at least two words, the sum is defined and lies between 0 and the number of records |
| `Evaluation.MeanInUnitInterval` | src/echo_tree_experiment/Evaluation/echo_tree_eval.py:586-598 | the mean exists exactly for a non-empty tally; an empty one divides by zero. Over sound records it lies in [0, 1] |
| `Evaluation.TallyKeys` | src/echo_tree_experiment/Evaluation/echo_tree_eval.py:473 | one key per record |
| `Evaluation.TallyKeysIndex` | src/echo_tree_experiment/Evaluation/echo_tree_eval.py:473 | the `k`-th key is that of the `k`-th record |
| `Evaluation.TallyKeysSnoc` | src/echo_tree_experiment/Evaluation/echo_tree_eval.py:473 | appending a record appends its key |
| `Evaluation.FileKeysSnoc` | src/echo_tree_experiment/Evaluation/echo_tree_eval.py:566-576 | the next sentence of a file gets the next sentence ID and its cleaned length |
| `Evaluation.RunKeysSnoc` | src/echo_tree_experiment/Evaluation/echo_tree_eval.py:564-576 | the next file adds its sentences under the checksum of its path |
| `Evaluation.OccurrencesOfEmpty` | src/echo_tree_experiment/Evaluation/echo_tree_eval.py:459-463 | no cleaned token equals the empty "root word", so the out-of-sequence scan counts nothing |
| `Evaluation.Evaluator.constructor` | src/echo_tree_experiment/Evaluation/echo_tree_eval.py:183-186 | a fresh explorer on the store, with an empty cache and an empty tally |
| `Evaluation.Evaluator.GetMaxDepthAllSentences` | src/echo_tree_experiment/Evaluation/echo_tree_eval.py:188-196 | the loop's running maximum is `MaxDeepest` of the tally |
| `Evaluation.Evaluator.GetCSVHeader` | src/echo_tree_experiment/Evaluation/echo_tree_eval.py:210-215 | the header built by the loop is `HeaderText` on the run's deepest depth |
| `Evaluation.Evaluator.ToCSV` | src/echo_tree_experiment/Evaluation/echo_tree_eval.py:198-208 | the header and the rows are `CsvOf` of the tally |
| `Evaluation.Evaluator.CsvRows` | src/echo_tree_experiment/Evaluation/echo_tree_eval.py:199-201 | the loop over the records gives one row per record, in order, on the run's deepest depth |
| `Evaluation.Evaluator.CsvRow` | src/echo_tree_experiment/Evaluation/echo_tree_eval.py:201 | one record's row, after the record asks the evaluator for the deepest depth, extends the rows before it |
| `Evaluation.Evaluator.MeanPerformance` | src/echo_tree_experiment/Evaluation/echo_tree_eval.py:586-598 | the closing loop and division give `MeanScore` of the tally |
| `Evaluation.Evaluator.CountWord` | src/echo_tree_experiment/Evaluation/echo_tree_eval.py:451-466 | a word missing from the displayed tree is a failure, and a word found is counted at its least depth. The out-of-sequence scan over the rest of the sentence counts only tokens equal to the "root word" |
| `Evaluation.Evaluator.GrowTree` | src/echo_tree_experiment/Evaluation/echo_tree_eval.py:446 | the tree grown from a typed word is the one the entry cache gives |
| `Evaluation.Evaluator.CaptureWords` | src/echo_tree_experiment/Evaluation/echo_tree_eval.py:445-470 | the replay loop leaves the record's counters as `Replay` under the entry cache says, and fails with its error |
| `Evaluation.Evaluator.TallyWordCapture` | src/echo_tree_experiment/Evaluation/echo_tree_eval.py:402-473 | the caller's list is cleaned in place. A successful replay appends exactly one record: its sentence ID (the tally index by default), its cleaned length, `outOfSeqs = 0` and the replay's counters. An empty cleaned sentence or a failed lookup appends nothing |
| `Evaluation.Evaluator.RecordSentence` | src/echo_tree_experiment/Evaluation/echo_tree_eval.py:438-473 | a record is appended exactly when the replay succeeds, and nothing else in the tally changes |
| `Evaluation.Evaluator.ReplaySentence` | src/echo_tree_experiment/Evaluation/echo_tree_eval.py:443-470 | a new record for the words, filled by the replay, and sound when the replay succeeds |
| `Evaluation.Evaluator.MeasurePerformance` | src/echo_tree_experiment/Evaluation/echo_tree_eval.py:529-598 | a successful run has one record per sentence in file order. Its email IDs are path checksums and its sentence IDs count from 0 in each file. Every path and every cleaned sentence (at least two words) is non-empty, and the mean lies in [0, 1] |
| `Evaluation.Evaluator.TallyFiles` | src/echo_tree_experiment/Evaluation/echo_tree_eval.py:563-580 | the loop over token files tallies `RunKeys` of the files |
| `Evaluation.Evaluator.Summarise` | src/echo_tree_experiment/Evaluation/echo_tree_eval.py:582-598 | the CSV is built first and its failure ends the run. Otherwise the mean over the records follows, with every record two words or longer |
| `Evaluation.Evaluator.TallyPath` | src/echo_tree_experiment/Evaluation/echo_tree_eval.py:564-567 | an empty path has no checksum. Otherwise the file's sentences are tallied under its path's checksum |
| `Evaluation.Evaluator.TallyFile` | src/echo_tree_experiment/Evaluation/echo_tree_eval.py:566-580 | the sentence loop appends one record per sentence, numbered from 0 |
| `Evaluation.Evaluator.TallyNext` | src/echo_tree_experiment/Evaluation/echo_tree_eval.py:569-576 | one pass reads the next sentence and, if there is one, appends its record |
| `Evaluation.Evaluator.TallySentence` | src/echo_tree_experiment/Evaluation/echo_tree_eval.py:575 | a sentence's comma-separated tokens are tallied under the file's email ID |

## Left out

- **The SQLite store.** `WordDatabase` and the cursor in `WordFollower` are replaced by the value `Database`. It maps a first word to the ordered follower list, or to `None` when the SELECT fails. The SQL text and its ordering clause are not modelled.
- **JSON.** `makeJSONTree` and `json.loads` are left out: the tree datatype is passed where the source round-trips it through JSON. Python 2 JSON yields unicode strings whose `lower()` is not modelled; `Lower` changes ASCII letters only.
- **Byte strings and unicode strings.** Every string is a sequence of characters in one encoding. Python 2 keeps two kinds apart: token text read from a file is a byte `str`, while a store label from the sqlite cursor is `unicode`. The model does not capture that a non-ASCII token and an equal-looking unicode label compare unequal in `getDepthFromWord` and in the tuple scan of `tallyWordCapture`. There, the source counts a failure where the model can count a hit. `IsSpace` knows only the six ASCII whitespace characters of a byte `split()`, not the extra whitespace that `unicode.split()` breaks on: U+00A0 and other non-ASCII spaces, and the four ASCII separators U+001C to U+001F (file, group, record and unit separator). So a store label such as `u"a\x1fb"` splits into two words in the source and stays one word in the model; `getDepthFromWord` and `extractWordSeqs` then differ. `CodeSum`, and so `Checksum`, adds up characters where `checksum` adds up the bytes of the path. The model agrees with the source on ASCII text without the separators U+001C to U+001F.
- **Console output.** `printWordTree`, `toString`, the verbosity prints and the `Verbosity` levels are left out.
- **File I/O.** The CSV file write in `toCSV` and the `open` of token and CSV files are left out: token files are (path, text) values. The `IOError` branches of `readSentence` and `toCSV` are also left out. The end-of-file case is modelled, and `read(1)` is assumed never to fail.
- **Other code.** `extractSentences` (an empty stub), the servers, the browser scripts, the command-line helpers and the tests are not part of this model.
- **Float formatting.** `'%.2f' %` and `str(float)` are left out. A row holds `Int`, `Fixed2` and `Float` cells over exact reals, and scores are exact reals instead of IEEE doubles.
- ToCSV (`Evaluation.Evaluator.ToCSV`, with `Evaluation.CsvOf`): returns a `Csv` value (the header line plus one list of cells per record) instead of one newline-joined string. The header line is modelled as text.
- **Trigram evaluation.** The evaluator's walks index every follow entry as a subtree, which fails on the bare strings of trigram trees. So every `Evaluator` method that grows a tree (`GrowTree`, `CaptureWords`, `TallyWordCapture`, `RecordSentence`, `ReplaySentence`, `MeasurePerformance` and its file loop `TallyFiles` … `TallySentence`) requires `arity == BIGRAM`. `CountWord` and the walks in `TreeQuery` require plain trees. The CSV and summary methods (`GetMaxDepthAllSentences`, `GetCSVHeader`, `ToCSV`, `CsvRows`, `CsvRow`, `MeanPerformance`, `Summarise`) need no arity. The explorer itself models both arities.
- MeasurePerformance (`Evaluation.Evaluator.MeasurePerformance`): requires the arity to be 2 and does not model a trigram run. On success it states each record's key and the mean, while each record's counters are stated per sentence by `TallyWordCapture`. On failure it states nothing about the tally.
- TallyFiles, TallyPath, TallyFile, TallyNext, TallySentence (parts of `measurePerformance`'s file loop, in `Evaluation.Evaluator`): state the keys of the records they append on success. On failure they state nothing beyond the reader's position.
- Evaluation.Evaluator.constructor: sets the arity to 2. The source leaves it unset until `measurePerformance` assigns it.
- **The record's back-reference.** `SentencePerformance` holds no reference to its evaluator. The run's deepest depth that the row `toCSV` asks the evaluator for is passed in by `CsvRow`, which calls `GetMaxDepthAllSentences` for each row as the source does.
- **Record creation.** The source builds the new record before it indexes the first token of an empty cleaned sentence. The model checks for the empty sentence first; the unappended record is unobservable.
- **The file-level guarantee of `readSentence`.** The model proves that one call yields the cleaned text between the next `[` and the `]` after it (`ScanBrackets`). It does not prove a statement about all the bracketed sentences of a file at once.
- **`getDepths`.** It feeds only `toString`, so it is left out; the CSV's depth columns are modelled through `DepthCells`.
