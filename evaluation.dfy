/**
 * The evaluator of typing performance: token files are read sentence by sentence, each
 * sentence is cleaned and replayed word by word against echo trees grown from the word
 * typed before, and the per-sentence records are summarised as CSV cells and a mean
 * depth-weighted score.
 */
module Evaluation {
  import opened Wrappers
  import opened Text
  import opened EchoTree
  import opened TreeFacts
  import opened Performance
  import opened TreeQuery

  /** Words the evaluator can drop from a sentence before replaying it. */
  const STOPWORDS: seq<string> := [
    "a", "able", "about", "across", "after", "all", "almost", "also", "am", "among", "an", "and", "any",
    "are", "as", "at", "be", "because", "been", "but", "by", "can", "cannot", "could", "dear", "did", "do",
    "does", "either", "else", "ever", "every", "for", "from", "get", "got", "had", "has", "have", "he",
    "her", "hers", "him", "his", "how", "however", "i", "if", "in", "into", "is", "it", "its", "just",
    "least", "let", "like", "likely", "may", "me", "might", "most", "must", "my", "neither", "no", "nor",
    "not", "of", "off", "often", "on", "only", "or", "other", "our", "own", "rather", "said", "say", "says",
    "she", "should", "since", "so", "some", "than", "that", "the", "their", "them", "then", "there", "these",
    "they", "this", "tis", "to", "too", "twas", "us", "wants", "was", "we", "were", "what", "when", "where",
    "which", "while", "who", "whom", "why", "will", "with", "would", "yet", "you", "your",
    "subject", "cc", "bcc", "nbspb", "mr.", "inc.", "one", "two", "three", "four", "five",
    "six", "seven", "eight", "nine", "ten", "enron", "http"]

  /** ASCII punctuation without the comma, which separates the tokens of a sentence. */
  const PUNCTUATION: string := "!\"#$%&'()*+-./:;<=>?@[\\]^_`{|}~"

  // ---------------------------------------------------------------- token lists

  /** `list.remove(x)`: drop the first occurrence of `x`; a list without `x` stays as it is. */
  function RemoveFirst(s: seq<string>, x: string): seq<string>
  {
    if s == [] then []
    else if s[0] == x then s[1..]
    else [s[0]] + RemoveFirst(s[1..], x)
  }

  /** Removing `x` from a list whose first occurrence of `x` is at `|a|` cuts out exactly that one. */
  lemma {:induction false} RemoveFirstAt(a: seq<string>, x: string, b: seq<string>)
    requires x !in a
    ensures RemoveFirst(a + [x] + b, x) == a + b
    decreases |a|
  {
    if a == [] {
      assert ([x] + b)[1..] == b;
    } else {
      assert (a + [x] + b)[1..] == a[1..] + [x] + b;
      RemoveFirstAt(a[1..], x, b);
      assert [a[0]] + (a[1..] + b) == a + b;
    }
  }

  /** `x in s`: no occurrence means nothing is removed. */
  lemma {:induction false} RemoveFirstAbsent(s: seq<string>, x: string)
    requires x !in s
    ensures RemoveFirst(s, x) == s
    decreases |s|
  {
    if s != [] {
      assert x !in s[1..];
      RemoveFirstAbsent(s[1..], x);
    }
  }

  /** A Python list of strings that `remove` changes in place. */
  class TokenList {
    var items: seq<string>

    constructor (items: seq<string>)
      ensures this.items == items
    {
      this.items := items;
    }

    /** `remove(x)`; `found` is false exactly where Python raises `ValueError`. */
    method Remove(x: string) returns (found: bool)
      modifies this
      ensures found == (x in old(items))
      ensures items == RemoveFirst(old(items), x)
    {
      var i := 0;
      while i < |items| && items[i] != x
        invariant 0 <= i <= |items|
        invariant x !in items[..i]
      {
        i := i + 1;
      }
      if i == |items| {
        assert items[..i] == items;
        RemoveFirstAbsent(items, x);
        return false;
      }
      assert items == items[..i] + [x] + items[i + 1..];
      RemoveFirstAt(items[..i], x, items[i + 1..]);
      items := items[..i] + items[i + 1..];
      return true;
    }
  }

  /** `w in ws`, looked up one entry at a time from the back. */
  predicate Listed(w: string, ws: seq<string>)
  {
    ws != [] && (ws[|ws| - 1] == w || Listed(w, ws[..|ws| - 1]))
  }

  lemma {:induction false} ListedIn(w: string, ws: seq<string>)
    ensures Listed(w, ws) <==> w in ws
    decreases |ws|
  {
    if ws != [] {
      ListedIn(w, ws[..|ws| - 1]);
      assert ws == ws[..|ws| - 1] + [ws[|ws| - 1]];
    }
  }

  /** A token the cleanup drops: an empty one, or a stopword when stopwords are removed. */
  predicate Dropped(w: string, removeStopwords: bool)
  {
    |w| == 0 || (removeStopwords && Listed(Lower(w), STOPWORDS))
  }

  /** The tokens the cleanup keeps, in their order. */
  function Clean(ws: seq<string>, removeStopwords: bool): seq<string>
  {
    if ws == [] then []
    else
      var front := Clean(ws[..|ws| - 1], removeStopwords);
      if Dropped(ws[|ws| - 1], removeStopwords) then front else front + [ws[|ws| - 1]]
  }

  /** A kept token is never dropped, and the kept tokens are a subsequence of the input. */
  lemma {:induction false} CleanSpec(ws: seq<string>, removeStopwords: bool)
    ensures forall k :: 0 <= k < |Clean(ws, removeStopwords)| ==> !Dropped(Clean(ws, removeStopwords)[k], removeStopwords)
    ensures forall w :: w in Clean(ws, removeStopwords) <==> w in ws && !Dropped(w, removeStopwords)
    ensures |Clean(ws, removeStopwords)| <= |ws|
    decreases |ws|
  {
    if ws != [] {
      var n := |ws|;
      CleanSpec(ws[..n - 1], removeStopwords);
      assert ws == ws[..n - 1] + [ws[n - 1]];
    }
  }

  /** One more position of the input: the filter grows by that token unless it is dropped. */
  lemma CleanAdvance(ws: seq<string>, i: nat, removeStopwords: bool)
    requires i < |ws|
    ensures Clean(ws[..i + 1], removeStopwords)
         == if Dropped(ws[i], removeStopwords) then Clean(ws[..i], removeStopwords)
            else Clean(ws[..i], removeStopwords) + [ws[i]]
  {
    assert ws[..i + 1][..i] == ws[..i];
  }

  /** Removing a dropped token by value, past the cleaned prefix, removes the visited one. */
  lemma DropStep(ws: seq<string>, i: nat, removeStopwords: bool)
    requires i < |ws| && Dropped(ws[i], removeStopwords)
    ensures RemoveFirst(Clean(ws[..i], removeStopwords) + ws[i..], ws[i])
         == Clean(ws[..i + 1], removeStopwords) + ws[i + 1..]
  {
    CleanSpec(ws[..i], removeStopwords);
    CleanAdvance(ws, i, removeStopwords);
    assert ws[i..] == [ws[i]] + ws[i + 1..];
    assert Clean(ws[..i], removeStopwords) + ws[i..] == Clean(ws[..i], removeStopwords) + [ws[i]] + ws[i + 1..];
    RemoveFirstAt(Clean(ws[..i], removeStopwords), ws[i], ws[i + 1..]);
  }

  /** A kept token just moves from the unvisited part into the cleaned prefix. */
  lemma KeepStep(ws: seq<string>, i: nat, removeStopwords: bool)
    requires i < |ws| && !Dropped(ws[i], removeStopwords)
    ensures Clean(ws[..i], removeStopwords) + ws[i..] == Clean(ws[..i + 1], removeStopwords) + ws[i + 1..]
  {
    CleanAdvance(ws, i, removeStopwords);
    assert ws[i..] == [ws[i]] + ws[i + 1..];
  }

  /**
   * The first loop of `tallyWordCapture`: over a copy of the tokens, every dropped token
   * is removed from the list by value. The first occurrence of a dropped value always
   * lies at the position being visited, so the list ends up as the order-preserving
   * filter.
   */
  method CleanTokens(tokens: TokenList, removeStopwords: bool)
    modifies tokens
    ensures tokens.items == Clean(old(tokens.items), removeStopwords)
  {
    var tokenCopy := tokens.items;
    for i := 0 to |tokenCopy|
      invariant tokens.items == Clean(tokenCopy[..i], removeStopwords) + tokenCopy[i..]
    {
      var word := tokenCopy[i];
      if |word| == 0 || (removeStopwords && Listed(Lower(word), STOPWORDS)) {
        DropStep(tokenCopy, i, removeStopwords);
        var _ := tokens.Remove(word);
      } else {
        KeepStep(tokenCopy, i, removeStopwords);
      }
    }
    assert tokenCopy[..|tokenCopy|] == tokenCopy;
  }

  // ---------------------------------------------------------------- sentence reader

  /** A file opened for reading, one character at a time. */
  class CharStream {
    const data: string
    var pos: nat

    ghost predicate Valid()
      reads this
    {
      pos <= |data|
    }

    constructor (data: string)
      ensures Valid() && this.data == data && pos == 0
    {
      this.data := data;
      pos := 0;
    }

    /** `fd.read(1)`: the next character, or the empty string at end of file. */
    method Read() returns (letter: string)
      requires Valid()
      modifies this
      ensures Valid()
      ensures old(pos) < |data| ==> letter == [data[old(pos)]] && pos == old(pos) + 1
      ensures old(pos) == |data| ==> letter == "" && pos == old(pos)
    {
      if pos == |data| {
        return "";
      }
      letter := [data[pos]];
      pos := pos + 1;
    }
  }

  /** The first index at or after `i` holding `c`, if any. */
  function Find(s: string, i: nat, c: char): (r: Option<nat>)
    requires i <= |s|
    ensures r.Some? ==> i <= r.value < |s|
    decreases |s| - i
  {
    if i == |s| then None
    else if s[i] == c then Some(i)
    else Find(s, i + 1, c)
  }

  /** `Find` reports the first `c` from `i` on, and nothing exactly when there is none. */
  lemma {:induction false} FindSpec(s: string, i: nat, c: char)
    requires i <= |s|
    ensures var r := Find(s, i, c);
      && (r.Some? ==> s[r.value] == c && c !in s[i..r.value])
      && (r.None? <==> c !in s[i..])
    decreases |s| - i
  {
    if i < |s| && s[i] != c {
      FindSpec(s, i + 1, c);
      var r := Find(s, i + 1, c);
      assert s[i..] == [s[i]] + s[i + 1..];
      if r.Some? {
        assert s[i..r.value] == [s[i]] + s[i + 1..r.value];
      }
    }
  }

  /** Characters `readSentence` leaves out of a sentence. */
  predicate Skipped(c: char)
  {
    c == ' ' || c in PUNCTUATION
  }

  /** The characters of `s[i..j]` except spaces and punctuation; commas stay. */
  function Kept(s: string, i: nat, j: nat): string
    requires i <= j <= |s|
    decreases j
  {
    if j == i then []
    else
      var front := Kept(s, i, j - 1);
      if Skipped(s[j - 1]) then front else front + [s[j - 1]]
  }

  /**
   * `readSentence` from position `pos`: the text between the next `[` and the `]` after
   * it, spaces and punctuation removed, and the position after the `]`. Running out of
   * input before either bracket gives `None` with the whole input consumed.
   */
  function ScanSentence(s: string, pos: nat): (r: (Option<string>, nat))
    requires pos <= |s|
    ensures pos <= r.1 <= |s|
    ensures r.0.Some? ==> pos < r.1
  {
    match Find(s, pos, '[')
    case None => (None, |s|)
    case Some(open) => ScanToCloser(s, open + 1)
  }

  /** The sentence from `from` on, once past its `[`: up to the next `]`, or `None` at the end of the input. */
  function ScanToCloser(s: string, from: nat): (r: (Option<string>, nat))
    requires from <= |s|
    ensures from <= r.1 <= |s|
    ensures r.0.Some? ==> from < r.1
  {
    match Find(s, from, ']')
    case None => (None, |s|)
    case Some(close) => (Some(Kept(s, from, close)), close + 1)
  }

  /** A first occurrence of `c` at `at` is what `Find` reports. */
  lemma {:induction false} FindFirst(s: string, i: nat, at: nat, c: char)
    requires i <= at < |s| && s[at] == c
    requires forall k :: i <= k < at ==> s[k] != c
    ensures Find(s, i, c) == Some(at)
    decreases at - i
  {
    if i < at {
      FindFirst(s, i + 1, at, c);
    }
  }

  /** What `readSentence` keeps is free of spaces and punctuation, and no longer than the text it came from. */
  lemma {:induction false} KeptSpec(s: string, i: nat, j: nat)
    requires i <= j <= |s|
    ensures |Kept(s, i, j)| <= j - i
    ensures forall k :: 0 <= k < |Kept(s, i, j)| ==> !Skipped(Kept(s, i, j)[k])
    decreases j
  {
    if j > i {
      KeptSpec(s, i, j - 1);
    }
  }

  /** Text without spaces and punctuation is kept as it is. */
  lemma {:induction false} KeptClean(s: string, i: nat, j: nat)
    requires i <= j <= |s|
    requires forall k :: i <= k < j ==> !Skipped(s[k])
    ensures Kept(s, i, j) == s[i..j]
    decreases j
  {
    if j > i {
      KeptClean(s, i, j - 1);
      assert s[i..j] == s[i..j - 1] + [s[j - 1]];
    }
  }

  /**
   * A first `[` at `open` from `pos` on, and a first `]` at `close` after it: the sentence
   * read is the text between them, and reading resumes after the `]`.
   */
  lemma ScanBrackets(s: string, pos: nat, open: nat, close: nat)
    requires pos <= open < close < |s| && s[open] == '[' && s[close] == ']'
    requires forall k :: pos <= k < open ==> s[k] != '['
    requires forall k :: open + 1 <= k < close ==> s[k] != ']'
    ensures ScanSentence(s, pos) == (Some(Kept(s, open + 1, close)), close + 1)
  {
    FindFirst(s, pos, open, '[');
    FindFirst(s, open + 1, close, ']');
  }

  /** The first loop of `readSentence`: consume up to and including the next `[`. */
  method SkipToOpener(fd: CharStream) returns (found: bool)
    requires fd.Valid()
    modifies fd
    ensures fd.Valid()
    ensures var open := Find(fd.data, old(fd.pos), '[');
      found == open.Some? && fd.pos == (if found then open.value + 1 else |fd.data|)
  {
    ghost var start := fd.pos;
    while true
      invariant fd.Valid() && start <= fd.pos
      invariant Find(fd.data, start, '[') == Find(fd.data, fd.pos, '[')
      decreases |fd.data| - fd.pos
    {
      var letter := fd.Read();
      if letter == "[" {
        return true;
      }
      if |letter| == 0 {
        return false;
      }
    }
  }

  /**
   * The second loop of `readSentence`: collect up to the next `]`, leaving out spaces and
   * punctuation; end of file first gives `None`.
   */
  method CollectToCloser(fd: CharStream) returns (r: Option<string>)
    requires fd.Valid()
    modifies fd
    ensures fd.Valid()
    ensures (r, fd.pos) == ScanToCloser(fd.data, old(fd.pos))
  {
    ghost var start := fd.pos;
    var res := "";
    while true
      invariant fd.Valid() && start <= fd.pos
      invariant Find(fd.data, start, ']') == Find(fd.data, fd.pos, ']')
      invariant res == Kept(fd.data, start, fd.pos)
      decreases |fd.data| - fd.pos
    {
      var letter := fd.Read();
      if |letter| == 0 {
        return None;
      }
      if letter == "]" {
        return Some(res);
      }
      if letter == " " || letter[0] in PUNCTUATION {
        continue;
      }
      res := res + letter;
    }
  }

  /** `readSentence`: skip to `[`, then collect up to `]`. */
  method ReadSentence(fd: CharStream) returns (r: Option<string>)
    requires fd.Valid()
    modifies fd
    ensures fd.Valid()
    ensures (r, fd.pos) == ScanSentence(fd.data, old(fd.pos))
  {
    ghost var start := fd.pos;
    var found := SkipToOpener(fd);
    if !found {
      assert ScanSentence(fd.data, start) == (None, |fd.data|);
      return None;
    }
    assert ScanSentence(fd.data, start) == ScanToCloser(fd.data, fd.pos);
    r := CollectToCloser(fd);
  }

  //---------------------------------------------------------------- checksum

  /** The sum of the character codes of `s`. */
  function CodeSum(s: string): nat
  {
    if s == [] then 0 else CodeSum(s[..|s| - 1]) + s[|s| - 1] as nat
  }

  /** `checksum`: `reduce` of `+` over the character codes; an empty string has nothing to reduce. */
  function Checksum(s: string): Result<nat, EvalError>
  {
    if |s| == 0 then Failure(EmptyReduce) else Success(CodeSum(s))
  }

  lemma {:induction false} CodeSumConcat(a: string, b: string)
    ensures CodeSum(a + b) == CodeSum(a) + CodeSum(b)
    decreases |b|
  {
    if b == [] {
      assert a + b == a;
    } else {
      assert (a + b)[..|a + b| - 1] == a + b[..|b| - 1];
      CodeSumConcat(a, b[..|b| - 1]);
    }
  }

  /**
   * The checksum only adds codes: it is additive over concatenation, and so blind to the
   * order of the pieces (two paths that are rotations of each other collide).
   */
  lemma ChecksumConcat(a: string, b: string)
    requires |a| > 0 && |b| > 0
    ensures Checksum(a + b) == Success(Checksum(a).value + Checksum(b).value)
    ensures Checksum(a + b) == Checksum(b + a)
  {
    CodeSumConcat(a, b);
    CodeSumConcat(b, a);
  }

  /** The sentences `readSentence` returns one after the other from `pos` until it returns `None`. */
  function SentencesFrom(s: string, pos: nat): seq<string>
    requires pos <= |s|
    decreases |s| - pos
  {
    var (sentence, next) := ScanSentence(s, pos);
    if sentence.None? then [] else [sentence.value] + SentencesFrom(s, next)
  }

  /** A sentence read at `pos` is the next of the sentences from `pos`. */
  lemma SentencesFromStep(s: string, pos: nat, done: seq<string>)
    requires pos <= |s| && ScanSentence(s, pos).0.Some?
    ensures done + SentencesFrom(s, pos) == (done + [ScanSentence(s, pos).0.value]) + SentencesFrom(s, ScanSentence(s, pos).1)
  {
  }

  // ---------------------------------------------------------------- replaying a sentence

  /** The tree `makeWordTree(w, BIGRAM)` grows with the default depth and breadth. */
  ghost function TreeOf(cache: map<string, Rows>, db: Database, w: string): Result<Option<Node>, LookupError>
    requires CacheShaped(cache)
  {
    BuildTree(cache, db, BIGRAM, RootWord(w), WORD_TREE_DEPTH, WORD_TREE_BREADTH)
  }

  /** A grown bigram tree is there, is rooted at `w`, holds only subtrees and keeps within the default depth. */
  lemma TreeOfShape(cache: map<string, Rows>, db: Database, w: string)
    requires CacheShaped(cache) && BigramCache(cache)
    ensures var t := TreeOf(cache, db, w);
      t.Success? ==>
        && t.value.Some? && t.value.value.word == w && Plain(t.value.value)
        && Bounded(t.value.value, WORD_TREE_DEPTH, BranchLimit(WORD_TREE_BREADTH))
  {
    BuildTreeRoot(cache, db, BIGRAM, RootWord(w), WORD_TREE_DEPTH, WORD_TREE_BREADTH);
    BigramTreePlain(cache, db, RootWord(w), WORD_TREE_DEPTH, WORD_TREE_BREADTH);
    BuildTreeBounded(cache, db, BIGRAM, RootWord(w), WORD_TREE_DEPTH, WORD_TREE_BREADTH);
  }

  /** The tree on display after `w` was typed. */
  ghost function Shown(cache: map<string, Rows>, db: Database, w: string): (n: Node)
    requires CacheShaped(cache) && BigramCache(cache) && TreeOf(cache, db, w).Success?
    ensures Plain(n) && Bounded(n, WORD_TREE_DEPTH, BranchLimit(WORD_TREE_BREADTH))
  {
    TreeOfShape(cache, db, w);
    TreeOf(cache, db, w).value.value
  }

  /** The counters of a sentence under way: the words not found, and the depth histogram. */
  datatype Tally = Tally(failures: nat, depths: map<int, nat>)

  /** One more word looked up: a failure when it is nowhere in the tree, its depth otherwise. */
  function Count(t: Tally, found: Option<nat>): Tally
  {
    if found.None? then Tally(t.failures + 1, t.depths) else Tally(t.failures, Recorded(t.depths, found.value))
  }

  /**
   * The counters after replaying `words[..k]`: word `j` is looked up in the tree grown
   * from word `j - 1`, and a tree is grown from every word, the last one included; the
   * first failed database lookup ends the replay.
   */
  ghost function ReplayUpTo(cache: map<string, Rows>, db: Database, words: seq<string>, k: nat): (r: Result<Tally, EvalError>)
    requires CacheShaped(cache) && BigramCache(cache) && 1 <= k <= |words|
    ensures r.Success? ==> TreeOf(cache, db, words[k - 1]).Success?
    decreases k
  {
    var prev := if k == 1 then Success(Tally(0, map[])) else ReplayUpTo(cache, db, words, k - 1);
    match prev
    case Failure(e) => Failure(e)
    case Success(t) =>
      var counted := if k == 1 then t else Count(t, DepthOf(Some(Shown(cache, db, words[k - 2])), words[k - 1]));
      match TreeOf(cache, db, words[k - 1])
      case Failure(e) => Failure(LookupFailed(e))
      case Success(_) => Success(counted)
  }

  /** `tallyWordCapture` on the cleaned tokens: an empty sentence has no first word. */
  ghost function Replay(cache: map<string, Rows>, db: Database, words: seq<string>): Result<Tally, EvalError>
    requires CacheShaped(cache) && BigramCache(cache)
  {
    if |words| == 0 then Failure(IndexOutOfRange) else ReplayUpTo(cache, db, words, |words|)
  }

  /**
   * Every word after the first is either a failure or counted at one depth, and depths
   * stay below `WORD_TREE_DEPTH`.
   */
  ghost predicate Balanced(t: Tally, sentenceLen: int)
  {
    && t.failures + DepthCount(t.depths, 0) + HitsUpTo(t.depths, WORD_TREE_DEPTH - 1) == sentenceLen - 1
    && forall d :: d in t.depths ==> 0 <= d < WORD_TREE_DEPTH
  }

  lemma {:induction false} HitsUpToRecorded(depths: map<int, nat>, depth: int, k: nat)
    ensures HitsUpTo(Recorded(depths, depth), k) == HitsUpTo(depths, k) + (if 1 <= depth <= k then 1 else 0)
  {
    if k > 0 {
      HitsUpToRecorded(depths, depth, k - 1);
      RecordedCount(depths, depth, k);
    }
  }

  /** Counting one word at a depth below `WORD_TREE_DEPTH` keeps the balance. */
  lemma CountBalanced(t: Tally, found: Option<nat>, sentenceLen: int)
    requires Balanced(t, sentenceLen)
    requires found.Some? ==> found.value < WORD_TREE_DEPTH
    ensures Balanced(Count(t, found), sentenceLen + 1)
  {
    if found.Some? {
      HitsUpToRecorded(t.depths, found.value, WORD_TREE_DEPTH - 1);
      RecordedCount(t.depths, found.value, 0);
    }
  }

  /** A successful replay of `k` words has counted each of the `k - 1` lookups exactly once. */
  lemma {:induction false} ReplayBalanced(cache: map<string, Rows>, db: Database, words: seq<string>, k: nat)
    requires CacheShaped(cache) && BigramCache(cache) && 1 <= k <= |words|
    ensures ReplayUpTo(cache, db, words, k).Success? ==> Balanced(ReplayUpTo(cache, db, words, k).value, k)
    decreases k
  {
    if k == 1 {
      assert HitsUpTo(map[], WORD_TREE_DEPTH - 1) == 0;
    } else {
      ReplayBalanced(cache, db, words, k - 1);
      ReplayBalancedStep(cache, db, words, k);
    }
  }

  /** The step of that induction: the `k`-th word keeps the balance of the first `k - 1`. */
  lemma ReplayBalancedStep(cache: map<string, Rows>, db: Database, words: seq<string>, k: nat)
    requires CacheShaped(cache) && BigramCache(cache) && 2 <= k <= |words|
    requires ReplayUpTo(cache, db, words, k - 1).Success? ==> Balanced(ReplayUpTo(cache, db, words, k - 1).value, k - 1)
    ensures ReplayUpTo(cache, db, words, k).Success? ==> Balanced(ReplayUpTo(cache, db, words, k).value, k)
  {
    if ReplayUpTo(cache, db, words, k).Success? {
      ReplayCounted(cache, db, words, k);
      CountShown(Shown(cache, db, words[k - 2]), words[k - 1], ReplayUpTo(cache, db, words, k - 1).value, k - 1);
    }
  }

  /** A successful replay of `k` words extends that of `k - 1` by counting the `k`-th word. */
  lemma ReplayCounted(cache: map<string, Rows>, db: Database, words: seq<string>, k: nat)
    requires CacheShaped(cache) && BigramCache(cache) && 2 <= k <= |words|
    requires ReplayUpTo(cache, db, words, k).Success?
    ensures ReplayUpTo(cache, db, words, k - 1).Success? && TreeOf(cache, db, words[k - 2]).Success?
    ensures ReplayUpTo(cache, db, words, k).value ==
      Count(ReplayUpTo(cache, db, words, k - 1).value, DepthOf(Some(Shown(cache, db, words[k - 2])), words[k - 1]))
  {
  }

  /** Looking a word up in a tree on display keeps the balance: the tree is too shallow for a deeper hit. */
  lemma CountShown(n: Node, w: string, t: Tally, sentenceLen: int)
    requires Plain(n) && Bounded(n, WORD_TREE_DEPTH, BranchLimit(WORD_TREE_BREADTH))
    requires Balanced(t, sentenceLen)
    ensures Balanced(Count(t, DepthOf(Some(n), w)), sentenceLen + 1)
  {
    var found := DepthOf(Some(n), w);
    if found.Some? {
      DepthOfIsLeast(n, w);
      OccursWithinBudget(n, w, found.value, WORD_TREE_DEPTH, BranchLimit(WORD_TREE_BREADTH));
    }
    CountBalanced(t, found, sentenceLen);
  }

  /** One more word of a successful replay: it is counted against the tree of the word before, then grows its own. */
  lemma ReplayAdvance(cache: map<string, Rows>, db: Database, words: seq<string>, i: nat, t: Tally)
    requires CacheShaped(cache) && BigramCache(cache) && 1 <= i < |words|
    requires ReplayUpTo(cache, db, words, i) == Success(t)
    ensures ReplayUpTo(cache, db, words, i + 1) ==
      match TreeOf(cache, db, words[i])
      case Failure(e) => Failure(LookupFailed(e))
      case Success(_) => Success(Count(t, DepthOf(Some(Shown(cache, db, words[i - 1])), words[i])))
  {
  }

  /** A failed lookup while replaying `words[..k]` is the failure of the whole sentence. */
  lemma {:induction false} ReplaySticks(cache: map<string, Rows>, db: Database, words: seq<string>, k: nat)
    requires CacheShaped(cache) && BigramCache(cache) && 1 <= k <= |words|
    requires ReplayUpTo(cache, db, words, k).Failure?
    ensures Replay(cache, db, words) == ReplayUpTo(cache, db, words, k)
    decreases |words| - k
  {
    if k < |words| {
      ReplayFailureKept(cache, db, words, k);
      ReplaySticks(cache, db, words, k + 1);
    }
  }

  /** A failed replay stays failed, with the same error, after one more word. */
  lemma ReplayFailureKept(cache: map<string, Rows>, db: Database, words: seq<string>, k: nat)
    requires CacheShaped(cache) && BigramCache(cache) && 1 <= k < |words|
    requires ReplayUpTo(cache, db, words, k).Failure?
    ensures ReplayUpTo(cache, db, words, k + 1) == ReplayUpTo(cache, db, words, k)
  {
  }

  /** A finished sentence record: the shape every record `tallyWordCapture` appends has. */
  ghost predicate Sound(p: SentencePerformance)
    reads p
  {
    p.sentenceLen >= 1 && p.outOfSeqs == 0 && Balanced(Tally(p.failures, p.depths), p.sentenceLen)
  }

  ghost predicate AllSound(tally: seq<SentencePerformance>)
    reads tally
  {
    forall i :: 0 <= i < |tally| ==> Sound(tally[i])
  }

  lemma AllSoundSnoc(tally: seq<SentencePerformance>, p: SentencePerformance)
    requires AllSound(tally) && Sound(p)
    ensures AllSound(tally + [p])
  {
  }

  /** Records nobody changed keep their keys and their soundness. */
  twostate lemma TallyUnchanged(tally: seq<SentencePerformance>)
    requires unchanged(tally)
    ensures TallyKeys(tally) == old(TallyKeys(tally))
    ensures old(AllSound(tally)) ==> AllSound(tally)
  {
  }

  // ---------------------------------------------------------------- the run summaries

  /** `getMaxDepthAllSentences`: the deepest depth over all records, and 0 for none. */
  function MaxDeepest(tally: seq<SentencePerformance>): int
    reads tally
  {
    if tally == [] then 0
    else
      var front := MaxDeepest(tally[..|tally| - 1]);
      var deepest := DeepestDepth(tally[|tally| - 1].depths);
      if deepest > front then deepest else front
  }

  /** The maximum is never negative, bounds every record's deepest depth, and is reached when positive. */
  lemma {:induction false} MaxDeepestSpec(tally: seq<SentencePerformance>)
    ensures MaxDeepest(tally) >= 0
    ensures forall i :: 0 <= i < |tally| ==> DeepestDepth(tally[i].depths) <= MaxDeepest(tally)
    ensures MaxDeepest(tally) > 0 ==> exists i :: 0 <= i < |tally| && DeepestDepth(tally[i].depths) == MaxDeepest(tally)
    decreases |tally|
  {
    if tally != [] {
      var n := |tally|;
      var front := tally[..n - 1];
      MaxDeepestSpec(front);
      forall i | 0 <= i < n - 1
        ensures tally[i] == front[i]
      {
      }
      if MaxDeepest(tally) > 0 && DeepestDepth(tally[n - 1].depths) != MaxDeepest(tally) {
        var i :| 0 <= i < n - 1 && DeepestDepth(front[i].depths) == MaxDeepest(front);
        assert tally[i] == front[i];
      }
    }
  }

  /** Over sound records the deepest depth stays below `WORD_TREE_DEPTH`. */
  lemma MaxDeepestBound(tally: seq<SentencePerformance>)
    requires forall i :: 0 <= i < |tally| ==> Sound(tally[i])
    ensures 0 <= MaxDeepest(tally) < WORD_TREE_DEPTH
  {
    MaxDeepestSpec(tally);
    if MaxDeepest(tally) > 0 {
      var i :| 0 <= i < |tally| && DeepestDepth(tally[i].depths) == MaxDeepest(tally);
      assert tally[i].depths != map[];
    }
  }

  /** The seven fixed column names in front of the depth columns. */
  const HEADER_FRONT: seq<string> := ["EmailID", "SentenceID", "SentenceLen", "Failures", "OutofSeq", "NetFailure", "NetSuccess"]

  /** The line the header starts with: those names separated by commas. */
  const HEADER_START: string := Join(HEADER_FRONT, ',')

  /** The name of the last column. */
  const SCORE_COLUMN: string := "DepthWeightedScore"

  /** The name of the column counting the words found at `depth`. */
  function DepthColumn(depth: nat): string
  {
    "Depth_" + NatToString(depth)
  }

  /** `Depth_1` .. `Depth_k`. */
  function DepthNames(k: nat): seq<string>
  {
    if k == 0 then [] else DepthNames(k - 1) + [DepthColumn(k)]
  }

  /** The column names of the CSV when the deepest depth is `maxDepth`. */
  function HeaderFields(maxDepth: int): seq<string>
  {
    HEADER_FRONT + DepthNames(if maxDepth < 0 then 0 else maxDepth) + [SCORE_COLUMN]
  }

  /** `,Depth_1` .. `,Depth_k`, as the header loop appends them. */
  function DepthSuffix(k: nat): string
  {
    if k == 0 then "" else DepthSuffix(k - 1) + "," + DepthColumn(k)
  }

  /** `getCSVHeader` when the deepest depth is `maxDepth`. */
  function HeaderText(maxDepth: int): string
  {
    HEADER_START + DepthSuffix(if maxDepth < 0 then 0 else maxDepth) + "," + SCORE_COLUMN
  }

  /** No column name holds a comma. */
  lemma ColumnsPlain(depth: nat)
    ensures forall k :: 0 <= k < |HEADER_FRONT| ==> ',' !in HEADER_FRONT[k]
    ensures ',' !in SCORE_COLUMN
    ensures ',' !in DepthColumn(depth)
  {
    var name := DepthColumn(depth);
    assert forall j :: 6 <= j < |name| ==> name[j] == NatToString(depth)[j - 6];
  }

  lemma {:induction false} PrefixSplits(k: nat)
    ensures SplitOn(HEADER_START + DepthSuffix(k), ',') == HEADER_FRONT + DepthNames(k)
  {
    if k == 0 {
      ColumnsPlain(0);
      SplitJoin(HEADER_FRONT, ',');
      assert HEADER_START + DepthSuffix(0) == HEADER_START;
    } else {
      PrefixSplits(k - 1);
      var front := HEADER_START + DepthSuffix(k - 1);
      assert HEADER_START + DepthSuffix(k) == front + [','] + DepthColumn(k);
      SplitOnConcat(front, DepthColumn(k), ',');
      ColumnsPlain(k);
      SplitOnPlain(DepthColumn(k), ',');
    }
  }

  lemma {:induction false} DepthNamesSpec(k: nat)
    ensures |DepthNames(k)| == k
    ensures forall d :: 1 <= d <= k ==> DepthNames(k)[d - 1] == DepthColumn(d)
  {
    if k > 0 {
      DepthNamesSpec(k - 1);
    }
  }

  /** The column names: `8 + maxDepth` of them, the seven fixed ones, the depth columns numbered from 1, the score last. */
  lemma HeaderFieldsShape(maxDepth: nat)
    ensures |HeaderFields(maxDepth)| == 8 + maxDepth
    ensures HeaderFields(maxDepth)[..7] == HEADER_FRONT
    ensures forall d :: 1 <= d <= maxDepth ==> HeaderFields(maxDepth)[6 + d] == DepthColumn(d)
    ensures HeaderFields(maxDepth)[7 + maxDepth] == SCORE_COLUMN
  {
    DepthNamesSpec(maxDepth);
    var names := DepthNames(maxDepth);
    var fields := HEADER_FRONT + names + [SCORE_COLUMN];
    assert fields[..7] == HEADER_FRONT;
    forall d | 1 <= d <= maxDepth
      ensures fields[6 + d] == DepthColumn(d)
    {
      assert fields[6 + d] == names[d - 1];
    }
  }

  /** The header line splits on commas into exactly those column names. */
  lemma HeaderSplits(maxDepth: nat)
    ensures SplitOn(HeaderText(maxDepth), ',') == HeaderFields(maxDepth)
  {
    PrefixSplits(maxDepth);
    var front := HEADER_START + DepthSuffix(maxDepth);
    assert HeaderText(maxDepth) == front + [','] + SCORE_COLUMN;
    SplitOnConcat(front, SCORE_COLUMN, ',');
    ColumnsPlain(0);
    SplitOnPlain(SCORE_COLUMN, ',');
  }

  /** A CSV: the header line and the cells of one row per sentence. */
  datatype Csv = Csv(header: string, rows: seq<seq<Cell>>)

  /** The rows of `tally`, the first failing one ending the listing. */
  function RowsOf(tally: seq<SentencePerformance>, maxDepth: int): Result<seq<seq<Cell>>, EvalError>
    reads tally
  {
    if tally == [] then Success([])
    else
      match RowsOf(tally[..|tally| - 1], maxDepth)
      case Failure(e) => Failure(e)
      case Success(front) =>
        match Row(tally[|tally| - 1], maxDepth)
        case Failure(e) => Failure(e)
        case Success(row) => Success(front + [row])
  }

  /** `Evaluator.toCSV`: the header on the run's deepest depth, and every record's row. */
  function CsvOf(tally: seq<SentencePerformance>): Result<Csv, EvalError>
    reads tally
  {
    var m := MaxDeepest(tally);
    match RowsOf(tally, m)
    case Failure(e) => Failure(e)
    case Success(rows) => Success(Csv(HeaderText(m), rows))
  }

  lemma {:induction false} RowsOfSpec(tally: seq<SentencePerformance>, maxDepth: nat)
    ensures RowsOf(tally, maxDepth).Success? <==> forall i :: 0 <= i < |tally| ==> tally[i].sentenceLen != 1
    ensures RowsOf(tally, maxDepth).Success? ==>
      && |RowsOf(tally, maxDepth).value| == |tally|
      && forall i :: 0 <= i < |tally| ==> Success(RowsOf(tally, maxDepth).value[i]) == Row(tally[i], maxDepth)
    decreases |tally|
  {
    if tally != [] {
      var n := |tally|;
      var front := tally[..n - 1];
      RowsOfSpec(front, maxDepth);
      RowShape(tally[n - 1], maxDepth);
      forall i | 0 <= i < n - 1
        ensures tally[i] == front[i]
      {
      }
    }
  }

  /**
   * The CSV fails exactly when some sentence has one word (its net success divides by
   * zero); otherwise it has one row per record, each with as many cells as the header
   * has columns.
   */
  lemma CsvShape(tally: seq<SentencePerformance>)
    ensures CsvOf(tally).Success? <==> forall i :: 0 <= i < |tally| ==> tally[i].sentenceLen != 1
    ensures CsvOf(tally).Success? ==>
      var csv := CsvOf(tally).value;
      && |csv.rows| == |tally|
      && forall i :: 0 <= i < |tally| ==> |csv.rows[i]| == |SplitOn(csv.header, ',')|
  {
    var m := MaxDeepest(tally);
    MaxDeepestSpec(tally);
    RowsOfSpec(tally, m);
    HeaderSplits(m);
    HeaderFieldsShape(m);
    if CsvOf(tally).Success? {
      var rows := RowsOf(tally, m).value;
      forall i | 0 <= i < |tally|
        ensures |rows[i]| == 8 + m
      {
        RowShape(tally[i], m);
      }
    }
  }

  /** One more row: the listing of `tally[..i + 1]` extends that of `tally[..i]` by the row of `tally[i]`. */
  lemma RowsOfStep(tally: seq<SentencePerformance>, maxDepth: int, i: nat)
    requires i < |tally|
    ensures RowsOf(tally[..i + 1], maxDepth) ==
      match RowsOf(tally[..i], maxDepth)
      case Failure(e) => Failure(e)
      case Success(front) =>
        match Row(tally[i], maxDepth)
        case Failure(e) => Failure(e)
        case Success(row) => Success(front + [row])
  {
    assert tally[..i + 1][..i] == tally[..i];
  }

  /** A failing prefix makes the whole listing fail the same way. */
  lemma {:induction false} RowsOfSticks(tally: seq<SentencePerformance>, maxDepth: int, i: nat)
    requires i <= |tally| && RowsOf(tally[..i], maxDepth).Failure?
    ensures RowsOf(tally, maxDepth) == RowsOf(tally[..i], maxDepth)
    decreases |tally| - i
  {
    if i == |tally| {
      assert tally[..i] == tally;
    } else {
      RowsOfStep(tally, maxDepth, i);
      RowsOfSticks(tally, maxDepth, i + 1);
    }
  }

  /** The sum of the records' weighted scores, the first failing one ending the sum. */
  function ScoreSum(tally: seq<SentencePerformance>): Result<real, EvalError>
    reads tally
  {
    if tally == [] then Success(0.0)
    else
      match ScoreSum(tally[..|tally| - 1])
      case Failure(e) => Failure(e)
      case Success(front) =>
        var last := tally[|tally| - 1];
        match DepthWeighted(last.depths, last.sentenceLen)
        case Failure(e) => Failure(e)
        case Success(score) => Success(front + score)
  }

  lemma ScoreSumStep(tally: seq<SentencePerformance>, i: nat)
    requires i < |tally|
    ensures ScoreSum(tally[..i + 1]) ==
      match ScoreSum(tally[..i])
      case Failure(e) => Failure(e)
      case Success(front) =>
        match DepthWeighted(tally[i].depths, tally[i].sentenceLen)
        case Failure(e) => Failure(e)
        case Success(score) => Success(front + score)
  {
    assert tally[..i + 1][..i] == tally[..i];
  }

  lemma {:induction false} ScoreSumSticks(tally: seq<SentencePerformance>, i: nat)
    requires i <= |tally| && ScoreSum(tally[..i]).Failure?
    ensures ScoreSum(tally) == ScoreSum(tally[..i])
    decreases |tally| - i
  {
    if i == |tally| {
      assert tally[..i] == tally;
    } else {
      ScoreSumStep(tally, i);
      ScoreSumSticks(tally, i + 1);
    }
  }

  /** The mean `measurePerformance` returns: the sum over the number of records. */
  function MeanScore(tally: seq<SentencePerformance>): Result<real, EvalError>
    reads tally
  {
    match ScoreSum(tally)
    case Failure(e) => Failure(e)
    case Success(total) => if |tally| == 0 then Failure(DivisionByZero) else Success(total / |tally| as real)
  }

  lemma {:induction false} ScoreSumBounds(tally: seq<SentencePerformance>)
    requires forall i :: 0 <= i < |tally| ==> Sound(tally[i]) && tally[i].sentenceLen >= 2
    ensures ScoreSum(tally).Success?
    ensures 0.0 <= ScoreSum(tally).value <= |tally| as real
    decreases |tally|
  {
    if tally != [] {
      var n := |tally|;
      var front := tally[..n - 1];
      forall i | 0 <= i < n - 1
        ensures Sound(front[i]) && front[i].sentenceLen >= 2
      {
        assert front[i] == tally[i];
      }
      ScoreSumBounds(front);
      var last := tally[n - 1];
      assert Sound(last) && last.sentenceLen >= 2;
      ScoreInUnitInterval(last.depths, last.sentenceLen);
    }
  }

  /** Over sound records of two words or more the mean score lies in [0, 1]; with no record it divides by zero. */
  lemma MeanInUnitInterval(tally: seq<SentencePerformance>)
    requires forall i :: 0 <= i < |tally| ==> Sound(tally[i]) && tally[i].sentenceLen >= 2
    ensures MeanScore(tally).Success? <==> |tally| > 0
    ensures MeanScore(tally).Success? ==> 0.0 <= MeanScore(tally).value <= 1.0
  {
    ScoreSumBounds(tally);
    if |tally| > 0 {
      RatioAtMostOne(ScoreSum(tally).value, |tally| as real);
    }
  }

  // ---------------------------------------------------------------- records of a run

  /** What identifies a record, and its length: email ID, sentence ID, number of cleaned tokens. */
  datatype Key = Key(emailID: int, sentenceID: int, sentenceLen: int)

  function KeyOf(p: SentencePerformance): Key
    reads p
  {
    Key(p.emailID, p.sentenceID, p.sentenceLen)
  }

  function TallyKeys(tally: seq<SentencePerformance>): (r: seq<Key>)
    reads tally
    ensures |r| == |tally|
  {
    if tally == [] then [] else TallyKeys(tally[..|tally| - 1]) + [KeyOf(tally[|tally| - 1])]
  }

  lemma {:induction false} TallyKeysIndex(tally: seq<SentencePerformance>, k: nat)
    requires k < |tally|
    ensures TallyKeys(tally)[k] == KeyOf(tally[k])
    decreases |tally|
  {
    if k < |tally| - 1 {
      TallyKeysIndex(tally[..|tally| - 1], k);
    }
  }

  lemma TallyKeysSnoc(tally: seq<SentencePerformance>, p: SentencePerformance)
    ensures TallyKeys(tally + [p]) == TallyKeys(tally) + [KeyOf(p)]
  {
    assert (tally + [p])[..|tally|] == tally;
  }

  /** The records one token file yields: one per sentence, numbered from 0, under the file's email ID. */
  function FileKeys(emailID: int, sentences: seq<string>, removeStopwords: bool): seq<Key>
  {
    if sentences == [] then []
    else
      var n := |sentences| - 1;
      FileKeys(emailID, sentences[..n], removeStopwords)
        + [Key(emailID, n, |Clean(SplitOn(sentences[n], ','), removeStopwords)|)]
  }

  lemma FileKeysSnoc(emailID: int, sentences: seq<string>, s: string, removeStopwords: bool)
    ensures FileKeys(emailID, sentences + [s], removeStopwords)
         == FileKeys(emailID, sentences, removeStopwords) + [Key(emailID, |sentences|, |Clean(SplitOn(s, ','), removeStopwords)|)]
  {
    assert (sentences + [s])[..|sentences|] == sentences;
  }

  /** The records of a whole run: the files in order, each email ID the checksum of the file's path. */
  function RunKeys(files: seq<TokenFile>, removeStopwords: bool): seq<Key>
  {
    if files == [] then []
    else
      var last := files[|files| - 1];
      RunKeys(files[..|files| - 1], removeStopwords)
        + FileKeys(CodeSum(last.path), SentencesFrom(last.content, 0), removeStopwords)
  }

  /** Regrouping an appended key; kept apart so the file loop's proof stays small. */
  lemma KeysAppend(a: seq<Key>, b: seq<Key>, k: Key)
    ensures (a + b) + [k] == a + (b + [k])
  {
  }

  lemma RunKeysSnoc(files: seq<TokenFile>, fi: nat, removeStopwords: bool)
    requires fi < |files|
    ensures RunKeys(files[..fi + 1], removeStopwords)
         == RunKeys(files[..fi], removeStopwords) + FileKeys(CodeSum(files[fi].path), SentencesFrom(files[fi].content, 0), removeStopwords)
  {
    assert files[..fi + 1][..fi] == files[..fi];
  }

  /** The first `n` token files have non-empty paths. */
  ghost predicate Named(files: seq<TokenFile>, n: nat)
    requires n <= |files|
  {
    forall i :: 0 <= i < n ==> |files[i].path| > 0
  }

  /** How many entries of `ws` equal `w`. */
  function Occurrences(ws: seq<string>, w: string): nat
  {
    if ws == [] then 0 else Occurrences(ws[..|ws| - 1], w) + (if ws[|ws| - 1] == w then 1 else 0)
  }

  /** The empty word occurs nowhere in a list of non-empty tokens. */
  lemma {:induction false} OccurrencesOfEmpty(ws: seq<string>)
    requires forall j :: 0 <= j < |ws| ==> |ws[j]| > 0
    ensures Occurrences(ws, "") == 0
    decreases |ws|
  {
    if ws != [] {
      OccurrencesOfEmpty(ws[..|ws| - 1]);
    }
  }

  // ---------------------------------------------------------------- the evaluator

  /** A token file: its path, and the text the tokenizer wrote into it. */
  datatype TokenFile = TokenFile(path: string, content: string)

  class Evaluator {
    const explorer: WordExplorer
    var arity: int
    var performanceTally: seq<SentencePerformance>

    /** The explorer's cache holds bigram answers only, and every record is sound. */
    ghost predicate Valid()
      reads this, explorer, performanceTally
    {
      && explorer.Valid() && BigramCache(explorer.cache)
      && AllSound(performanceTally)
    }

    /** `Evaluator(dbPath)`: a fresh explorer on the database and an empty tally. */
    constructor (db: Database)
      ensures Valid() && fresh(explorer)
      ensures explorer.db == db && explorer.cache == map[] && performanceTally == [] && arity == BIGRAM
    {
      explorer := new WordExplorer(db);
      performanceTally := [];
      arity := BIGRAM;
    }

    /** `getMaxDepthAllSentences`. */
    method GetMaxDepthAllSentences() returns (maxDepth: int)
      ensures maxDepth == MaxDeepest(performanceTally)
    {
      maxDepth := 0;
      for i := 0 to |performanceTally|
        invariant maxDepth == MaxDeepest(performanceTally[..i])
      {
        assert performanceTally[..i + 1][..i] == performanceTally[..i];
        var deepest := DeepestDepth(performanceTally[i].depths);
        maxDepth := if deepest > maxDepth then deepest else maxDepth;
      }
      assert performanceTally[..|performanceTally|] == performanceTally;
    }

    /** `getCSVHeader`: the fixed columns, `Depth_1` .. `Depth_m`, then the weighted score. */
    method GetCSVHeader() returns (header: string)
      ensures header == HeaderText(MaxDeepest(performanceTally))
    {
      header := HEADER_START;
      var m := GetMaxDepthAllSentences();
      MaxDeepestSpec(performanceTally);
      for depthIndex := 1 to m + 1
        invariant header == HEADER_START + DepthSuffix(depthIndex - 1)
      {
        header := header + "," + DepthColumn(depthIndex);
      }
      header := header + "," + SCORE_COLUMN;
    }

    /** `toCSV`: the header and one row per record; a one-word sentence makes a row fail. */
    method ToCSV() returns (r: Result<Csv, EvalError>)
      ensures r == CsvOf(performanceTally)
    {
      var header := GetCSVHeader();
      var rows := CsvRows();
      if rows.Failure? {
        return Failure(rows.error);
      }
      return Success(Csv(header, rows.value));
    }

    /** The rows of `toCSV`, in tally order, each on the run's deepest depth. */
    method CsvRows() returns (r: Result<seq<seq<Cell>>, EvalError>)
      ensures r == RowsOf(performanceTally, MaxDeepest(performanceTally))
    {
      var rows: seq<seq<Cell>> := [];
      for i := 0 to |performanceTally|
        invariant RowsOf(performanceTally[..i], MaxDeepest(performanceTally)) == Success(rows)
      {
        var row := CsvRow(i, rows);
        if row.Failure? {
          RowsOfSticks(performanceTally, MaxDeepest(performanceTally), i + 1);
          return Failure(row.error);
        }
        rows := rows + [row.value];
      }
      assert performanceTally[..|performanceTally|] == performanceTally;
      return Success(rows);
    }

    /**
     * `SentencePerformance.toCSV` on record `i`, which asks the evaluator for the deepest
     * depth: the row that extends the listing of the records before it.
     */
    method CsvRow(i: nat, ghost rows: seq<seq<Cell>>) returns (r: Result<seq<Cell>, EvalError>)
      requires i < |performanceTally|
      requires RowsOf(performanceTally[..i], MaxDeepest(performanceTally)) == Success(rows)
      ensures r == Row(performanceTally[i], MaxDeepest(performanceTally))
      ensures RowsOf(performanceTally[..i + 1], MaxDeepest(performanceTally))
        == if r.Failure? then Failure(r.error) else Success(rows + [r.value])
    {
      var m := GetMaxDepthAllSentences();
      r := performanceTally[i].ToCSV(m);
      RowsOfStep(performanceTally, m, i);
    }

    /** The closing loop of `measurePerformance`: the mean of the records' weighted scores. */
    method MeanPerformance() returns (r: Result<real, EvalError>)
      ensures r == MeanScore(performanceTally)
    {
      var total := 0.0;
      for i := 0 to |performanceTally|
        invariant ScoreSum(performanceTally[..i]) == Success(total)
      {
        var score := performanceTally[i].DepthWeightedSuccess();
        ScoreSumStep(performanceTally, i);
        if score.Failure? {
          ScoreSumSticks(performanceTally, i + 1);
          return Failure(score.error);
        }
        total := total + score.value;
      }
      assert performanceTally[..|performanceTally|] == performanceTally;
      if |performanceTally| == 0 {
        return Failure(DivisionByZero);
      }
      return Success(total / |performanceTally| as real);
    }
  
    /**
     * One word of the replay loop of `tallyWordCapture`: look `word` up in the tree on
     * display and count it as a failure or at its depth. A failure also scans the rest of
     * the sentence for out-of-sequence words (`None < len(sentenceTokens) - 1` holds in
     * Python 2, so the scan always runs), testing membership in the pair
     * `(rootWord, wordSet)`: a token never equals the set, so only tokens equal to
     * `rootWord` count.
     */
    method CountWord(sentencePerf: SentencePerformance, tree: Node, rootWord: string, rest: seq<string>, word: string)
      requires Plain(tree)
      modifies sentencePerf
      ensures Tally(sentencePerf.failures, sentencePerf.depths)
           == Count(Tally(old(sentencePerf.failures), old(sentencePerf.depths)), DepthOf(Some(tree), word))
      ensures sentencePerf.outOfSeqs
           == old(sentencePerf.outOfSeqs) + (if DepthOf(Some(tree), word).None? then Occurrences(rest, rootWord) else 0)
      ensures sentencePerf.sentenceLen == old(sentencePerf.sentenceLen)
      ensures sentencePerf.emailID == old(sentencePerf.emailID) && sentencePerf.sentenceID == old(sentencePerf.sentenceID)
    {
      var wordDepth := GetDepthFromWord(Some(tree), word);
      if wordDepth.None? {
        sentencePerf.AddFailure();
        for j := 0 to |rest|
          invariant sentencePerf.outOfSeqs == old(sentencePerf.outOfSeqs) + Occurrences(rest[..j], rootWord)
          invariant sentencePerf.failures == old(sentencePerf.failures) + 1 && sentencePerf.depths == old(sentencePerf.depths)
          invariant sentencePerf.sentenceLen == old(sentencePerf.sentenceLen)
          invariant sentencePerf.emailID == old(sentencePerf.emailID) && sentencePerf.sentenceID == old(sentencePerf.sentenceID)
        {
          assert rest[..j + 1][..j] == rest[..j];
          if rest[j] == rootWord {
            sentencePerf.AddOutOfSeq();
          }
        }
        assert rest[..|rest|] == rest;
      } else {
        sentencePerf.AddWordDepth(wordDepth.value);
      }
    }

    /**
     * `makeWordTree(word, self.arity)` with the default depth and breadth: the tree is the
     * one the cache `c0` would give, for every cache the explorer's agrees with `c0`.
     */
    method GrowTree(ghost c0: map<string, Rows>, word: string) returns (tree: Result<Option<Node>, LookupError>)
      requires explorer.Valid() && BigramCache(explorer.cache) && arity == BIGRAM
      requires CacheShaped(c0) && BigramCache(c0) && Agrees(c0, explorer.cache, explorer.db, BIGRAM)
      modifies explorer
      ensures explorer.Valid() && BigramCache(explorer.cache) && Agrees(c0, explorer.cache, explorer.db, BIGRAM)
      ensures tree == TreeOf(c0, explorer.db, word)
      ensures tree.Success? ==> tree.value == Some(Shown(c0, explorer.db, word))
    {
      ghost var before := explorer.cache;
      tree := explorer.MakeWordTree(RootWord(word), arity, WORD_TREE_DEPTH, WORD_TREE_BREADTH);
      BuildTreeAgrees(c0, before, explorer.db, BIGRAM, RootWord(word), WORD_TREE_DEPTH, WORD_TREE_BREADTH);
      AgreesTrans(c0, before, explorer.cache, explorer.db, BIGRAM);
      AgreesBigram(before, explorer.cache, explorer.db);
      TreeOfShape(c0, explorer.db, word);
    }

    /**
     * The replay loop of `tallyWordCapture` over the cleaned tokens `words`: grow the
     * first tree, then for each later word count it against the tree on display and grow
     * the next tree from it. The counters of the new record end as the replay under the
     * entry cache says.
     */
    method CaptureWords(sentencePerf: SentencePerformance, words: seq<string>) returns (r: Result<(), EvalError>)
      requires explorer.Valid() && BigramCache(explorer.cache) && arity == BIGRAM && |words| >= 1
      requires forall j :: 0 <= j < |words| ==> |words[j]| > 0
      requires sentencePerf.failures == 0 && sentencePerf.depths == map[]
      modifies explorer, sentencePerf
      ensures explorer.Valid() && BigramCache(explorer.cache)
      ensures Agrees(old(explorer.cache), explorer.cache, explorer.db, BIGRAM)
      ensures var outcome := Replay(old(explorer.cache), explorer.db, words);
        && (r.Failure? <==> outcome.Failure?)
        && (r.Failure? ==> r.error == outcome.error)
        && (r.Success? ==> Tally(sentencePerf.failures, sentencePerf.depths) == outcome.value)
      ensures sentencePerf.outOfSeqs == old(sentencePerf.outOfSeqs) && sentencePerf.sentenceLen == old(sentencePerf.sentenceLen)
      ensures sentencePerf.emailID == old(sentencePerf.emailID) && sentencePerf.sentenceID == old(sentencePerf.sentenceID)
    {
      ghost var c0 := explorer.cache;
      ghost var db := explorer.db;
      var tree := GrowTree(c0, words[0]);
      if tree.Failure? {
        ReplaySticks(c0, db, words, 1);
        return Failure(LookupFailed(tree.error));
      }
      var rootWord, wordSet := ExtractWordSet(tree.value.value);
      WordSetRootEmpty(tree.value.value);
      for i := 1 to |words|
        invariant explorer.Valid() && BigramCache(explorer.cache) && Agrees(c0, explorer.cache, db, BIGRAM)
        invariant tree == TreeOf(c0, db, words[i - 1]) && tree.Success? && tree.value == Some(Shown(c0, db, words[i - 1]))
        invariant rootWord == ""
        invariant ReplayUpTo(c0, db, words, i) == Success(Tally(sentencePerf.failures, sentencePerf.depths))
        invariant sentencePerf.outOfSeqs == old(sentencePerf.outOfSeqs) && sentencePerf.sentenceLen == old(sentencePerf.sentenceLen)
        invariant sentencePerf.emailID == old(sentencePerf.emailID) && sentencePerf.sentenceID == old(sentencePerf.sentenceID)
      {
        var word := words[i];
        ReplayAdvance(c0, db, words, i, Tally(sentencePerf.failures, sentencePerf.depths));
        CountWord(sentencePerf, tree.value.value, rootWord, words[i..], word);
        OccurrencesOfEmpty(words[i..]);
        tree := GrowTree(c0, word);
        if tree.Failure? {
          ReplaySticks(c0, db, words, i + 1);
          return Failure(LookupFailed(tree.error));
        }
        rootWord, wordSet := ExtractWordSet(tree.value.value);
        WordSetRootEmpty(tree.value.value);
      }
      return Success(());
    }

    /**
     * `tallyWordCapture`: clean the tokens in place, then replay them. On success exactly
     * one new record is appended, carrying the counters of the replay under the cache as
     * it was on entry; an empty cleaned sentence or a failed lookup appends nothing.
     */
    method TallyWordCapture(sentenceTokens: TokenList, emailID: int, sentenceID: Option<int>, removeStopwords: bool)
      returns (r: Result<(), EvalError>)
      requires Valid() && arity == BIGRAM
      modifies this, explorer, sentenceTokens
      ensures Valid() && arity == BIGRAM
      ensures sentenceTokens.items == Clean(old(sentenceTokens.items), removeStopwords)
      ensures Agrees(old(explorer.cache), explorer.cache, explorer.db, BIGRAM)
      ensures var outcome := Replay(old(explorer.cache), explorer.db, sentenceTokens.items);
        && (r.Failure? <==> outcome.Failure?)
        && (r.Failure? ==> r.error == outcome.error && performanceTally == old(performanceTally))
        && (r.Success? ==>
          && |performanceTally| == |old(performanceTally)| + 1
          && performanceTally[..|old(performanceTally)|] == old(performanceTally)
          && var p := performanceTally[|old(performanceTally)|];
          && fresh(p)
          && p.emailID == emailID
          && p.sentenceID == (if sentenceID.None? then |old(performanceTally)| else sentenceID.value)
          && p.sentenceLen == |sentenceTokens.items|
          && p.outOfSeqs == 0
          && Tally(p.failures, p.depths) == outcome.value)
      ensures TallyKeys(performanceTally) == old(TallyKeys(performanceTally)) + (if r.Failure? then [] else
        [Key(emailID, if sentenceID.None? then |old(performanceTally)| else sentenceID.value, |sentenceTokens.items|)])
    {
      CleanTokens(sentenceTokens, removeStopwords);
      var words := sentenceTokens.items;
      CleanSpec(old(sentenceTokens.items), removeStopwords);
      var sid := if sentenceID.None? then |performanceTally| else sentenceID.value;
      if |words| == 0 {
        return Failure(IndexOutOfRange);
      }
      r := RecordSentence(words, emailID, sid);
    }

    /**
     * The part of `tallyWordCapture` after the cleanup, on a sentence with a first word:
     * the record filled by the replay, appended when the replay succeeds.
     */
    method RecordSentence(words: seq<string>, emailID: int, sentenceID: int) returns (r: Result<(), EvalError>)
      requires Valid() && arity == BIGRAM && |words| >= 1
      requires forall j :: 0 <= j < |words| ==> |words[j]| > 0
      modifies this, explorer
      ensures Valid() && arity == BIGRAM
      ensures Agrees(old(explorer.cache), explorer.cache, explorer.db, BIGRAM)
      ensures var outcome := Replay(old(explorer.cache), explorer.db, words);
        && (r.Failure? <==> outcome.Failure?)
        && (r.Failure? ==> r.error == outcome.error && performanceTally == old(performanceTally))
        && (r.Success? ==>
          && |performanceTally| == |old(performanceTally)| + 1
          && performanceTally[..|old(performanceTally)|] == old(performanceTally)
          && var p := performanceTally[|old(performanceTally)|];
          && fresh(p)
          && p.emailID == emailID
          && p.sentenceID == sentenceID
          && p.sentenceLen == |words|
          && p.outOfSeqs == 0
          && Tally(p.failures, p.depths) == outcome.value)
      ensures TallyKeys(performanceTally) == old(TallyKeys(performanceTally)) + (if r.Failure? then [] else
        [Key(emailID, sentenceID, |words|)])
    {
      var sentencePerf;
      r, sentencePerf := ReplaySentence(words, emailID, sentenceID);
      if r.Failure? {
        TallyUnchanged(performanceTally);
        return;
      }
      ghost var before := performanceTally;
      performanceTally := performanceTally + [sentencePerf];
      TallyUnchanged(before);
      TallyKeysSnoc(before, sentencePerf);
      AllSoundSnoc(before, sentencePerf);
    }

    /**
     * `SentencePerformance(self, sentenceTokens, ...)` followed by the replay loop: a new
     * record for `words`, sound when the replay succeeds.
     */
    method ReplaySentence(words: seq<string>, emailID: int, sentenceID: int)
      returns (r: Result<(), EvalError>, sentencePerf: SentencePerformance)
      requires explorer.Valid() && BigramCache(explorer.cache) && arity == BIGRAM && |words| >= 1
      requires forall j :: 0 <= j < |words| ==> |words[j]| > 0
      modifies explorer
      ensures explorer.Valid() && BigramCache(explorer.cache)
      ensures Agrees(old(explorer.cache), explorer.cache, explorer.db, BIGRAM)
      ensures fresh(sentencePerf)
      ensures sentencePerf.emailID == emailID && sentencePerf.sentenceID == sentenceID
      ensures sentencePerf.sentenceLen == |words| && sentencePerf.outOfSeqs == 0
      ensures var outcome := Replay(old(explorer.cache), explorer.db, words);
        && (r.Failure? <==> outcome.Failure?)
        && (r.Failure? ==> r.error == outcome.error)
        && (r.Success? ==> Tally(sentencePerf.failures, sentencePerf.depths) == outcome.value && Sound(sentencePerf))
    {
      sentencePerf := new SentencePerformance(|words|, emailID, sentenceID);
      ghost var c0 := explorer.cache;
      r := CaptureWords(sentencePerf, words);
      if r.Success? {
        ReplayBalanced(c0, explorer.db, words, |words|);
      }
    }

    /**
     * `measurePerformance`: set the arity, clear the tally, and tally every sentence of
     * every token file, the email ID being the checksum of the file's path and the
     * sentence IDs counting from 0 in each file; then build the CSV and return the mean
     * weighted score. A successful run has one record per sentence in file order, every
     * path non-empty and every cleaned sentence at least two words long, and its mean
     * lies in [0, 1].
     */
    method MeasurePerformance(arity: int, files: seq<TokenFile>, removeStopwords: bool) returns (r: Result<real, EvalError>)
      requires Valid() && arity == BIGRAM
      modifies this, explorer
      ensures Valid() && this.arity == arity
      ensures r.Success? ==>
        && TallyKeys(performanceTally) == RunKeys(files, removeStopwords)
        && |performanceTally| >= 1
        && (forall i :: 0 <= i < |files| ==> |files[i].path| > 0)
        && (forall k :: 0 <= k < |performanceTally| ==> performanceTally[k].sentenceLen >= 2)
        && MeanScore(performanceTally) == r
        && 0.0 <= r.value <= 1.0
    {
      this.arity := arity;
      performanceTally := [];
      var tallied := TallyFiles(files, removeStopwords);
      if tallied.Failure? {
        return Failure(tallied.error);
      }
      r := Summarise();
    }

    /** The loop of `measurePerformance` over the token files, from an empty tally. */
    method TallyFiles(files: seq<TokenFile>, removeStopwords: bool) returns (r: Result<(), EvalError>)
      requires Valid() && arity == BIGRAM && performanceTally == []
      modifies this, explorer
      ensures Valid() && arity == BIGRAM
      ensures r.Success? ==>
        && TallyKeys(performanceTally) == RunKeys(files, removeStopwords)
        && (forall i :: 0 <= i < |files| ==> |files[i].path| > 0)
    {
      for fi := 0 to |files|
        invariant Valid() && arity == BIGRAM
        invariant TallyKeys(performanceTally) == RunKeys(files[..fi], removeStopwords)
        invariant Named(files, fi)
      {
        var r' := TallyPath(files[fi], removeStopwords);
        if r'.Failure? {
          return Failure(r'.error);
        }
        RunKeysSnoc(files, fi, removeStopwords);
      }
      assert files[..|files|] == files;
      return Success(());
    }

    /**
     * The end of `measurePerformance`: build the CSV, then the mean weighted score. It
     * fails when the CSV does, and otherwise every record has at least two words and the
     * mean of a non-empty tally lies in [0, 1].
     */
    method Summarise() returns (r: Result<real, EvalError>)
      requires Valid()
      ensures r == if CsvOf(performanceTally).Failure? then Failure(CsvOf(performanceTally).error) else MeanScore(performanceTally)
      ensures r.Success? ==>
        && |performanceTally| >= 1
        && (forall k :: 0 <= k < |performanceTally| ==> performanceTally[k].sentenceLen >= 2)
        && 0.0 <= r.value <= 1.0
    {
      var csvAll := ToCSV();
      if csvAll.Failure? {
        return Failure(csvAll.error);
      }
      CsvShape(performanceTally);
      forall k | 0 <= k < |performanceTally|
        ensures performanceTally[k].sentenceLen >= 2
      {
        assert Sound(performanceTally[k]);
      }
      MeanInUnitInterval(performanceTally);
      r := MeanPerformance();
    }

    /** One token file of `measurePerformance`: its email ID is the checksum of its path. */
    method TallyPath(file: TokenFile, removeStopwords: bool) returns (r: Result<(), EvalError>)
      requires Valid() && arity == BIGRAM
      modifies this, explorer
      ensures Valid() && arity == BIGRAM
      ensures |file.path| == 0 ==> r == Failure(EmptyReduce)
      ensures r.Success? ==>
        && |file.path| > 0
        && TallyKeys(performanceTally)
           == old(TallyKeys(performanceTally)) + FileKeys(CodeSum(file.path), SentencesFrom(file.content, 0), removeStopwords)
    {
      var msgID := Checksum(file.path);
      if msgID.Failure? {
        return Failure(msgID.error);
      }
      r := TallyFile(file, msgID.value, removeStopwords);
    }

    /** The loop of `measurePerformance` over the sentences of one token file. */
    method TallyFile(file: TokenFile, msgID: nat, removeStopwords: bool) returns (r: Result<(), EvalError>)
      requires Valid() && arity == BIGRAM && msgID == CodeSum(file.path)
      modifies this, explorer
      ensures Valid() && arity == BIGRAM
      ensures r.Success? ==>
        TallyKeys(performanceTally) == old(TallyKeys(performanceTally)) + FileKeys(msgID, SentencesFrom(file.content, 0), removeStopwords)
    {
      var sentenceID := 0;
      var tokenFD := new CharStream(file.content);
      ghost var done: seq<string> := [];
      ghost var keys0 := TallyKeys(performanceTally);
      while true
        invariant Valid() && arity == BIGRAM
        invariant tokenFD.Valid() && tokenFD.data == file.content && fresh(tokenFD)
        invariant SentencesFrom(file.content, 0) == done + SentencesFrom(file.content, tokenFD.pos)
        invariant sentenceID == |done|
        invariant TallyKeys(performanceTally) == keys0 + FileKeys(msgID, done, removeStopwords)
        decreases |file.content| - tokenFD.pos
      {
        ghost var at := tokenFD.pos;
        ghost var keys := TallyKeys(performanceTally);
        var pythonSentenceTokens, outcome := TallyNext(tokenFD, msgID, sentenceID, removeStopwords);
        if pythonSentenceTokens.None? {
          assert done == SentencesFrom(file.content, 0);
          break;
        }
        if outcome.Failure? {
          return Failure(outcome.error);
        }
        var sentence := pythonSentenceTokens.value;
        SentencesFromStep(file.content, at, done);
        FileKeysSnoc(msgID, done, sentence, removeStopwords);
        KeysAppend(keys0, FileKeys(msgID, done, removeStopwords), Key(msgID, sentenceID, |Clean(SplitOn(sentence, ','), removeStopwords)|));
        done := done + [sentence];
        sentenceID := sentenceID + 1;
      }
      return Success(());
    }

    /**
     * One pass of the loop of `measurePerformance` over a token file: read the next
     * sentence and, if there is one, tally its comma-separated tokens.
     */
    method TallyNext(tokenFD: CharStream, msgID: nat, sentenceID: nat, removeStopwords: bool)
      returns (sentence: Option<string>, r: Result<(), EvalError>)
      requires Valid() && arity == BIGRAM && tokenFD.Valid()
      modifies this, explorer, tokenFD
      ensures Valid() && arity == BIGRAM && tokenFD.Valid()
      ensures (sentence, tokenFD.pos) == ScanSentence(tokenFD.data, old(tokenFD.pos))
      ensures sentence.None? ==> TallyKeys(performanceTally) == old(TallyKeys(performanceTally))
      ensures sentence.Some? && r.Success? ==>
        TallyKeys(performanceTally)
          == old(TallyKeys(performanceTally)) + [Key(msgID, sentenceID, |Clean(SplitOn(sentence.value, ','), removeStopwords)|)]
    {
      sentence := ReadSentence(tokenFD);
      if sentence.None? {
        return sentence, Success(());
      }
      r := TallySentence(sentence.value, msgID, sentenceID, removeStopwords);
    }

    /** One sentence of a token file: its comma-separated tokens, tallied under the file's email ID. */
    method TallySentence(sentence: string, msgID: nat, sentenceID: nat, removeStopwords: bool) returns (r: Result<(), EvalError>)
      requires Valid() && arity == BIGRAM
      modifies this, explorer
      ensures Valid() && arity == BIGRAM
      ensures r.Success? ==>
        TallyKeys(performanceTally)
          == old(TallyKeys(performanceTally)) + [Key(msgID, sentenceID, |Clean(SplitOn(sentence, ','), removeStopwords)|)]
    {
      var tokens := new TokenList(SplitOn(sentence, ','));
      r := TallyWordCapture(tokens, msgID, Some(sentenceID), removeStopwords);
    }
  }
}
