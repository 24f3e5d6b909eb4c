/**
 * The prediction-tree engine: a follower store reached through a per-word cache,
 * and the recursive builder of bounded, frequency-ordered word trees.
 */
module EchoTree {
  import opened Wrappers

  /** Default number of followers pursued below each word. */
  const WORD_TREE_BREADTH: int := 5
  /** Default depth budget of a tree. */
  const WORD_TREE_DEPTH: int := 3

  /** The `n` of an n-gram. */
  const BIGRAM: int := 2
  const TRIGRAM: int := 3

  /** Why the store could not answer (both are `ValueError` in the source). */
  datatype LookupError =
    | ArityNotImplemented(arity: int)
    | SelectFailed(word: string)

  /**
   * The co-occurrence database: for a first word, the second words of the Bigrams
   * table (or the second and third words of the Trigrams table) in descending
   * probability order; `None` when the SELECT statement fails.
   */
  datatype Database = Database(
    bigrams: string -> Option<seq<string>>,
    trigrams: string -> Option<seq<(string, string)>>)

  /** Follower tuples as the cursor yields them. */
  type Rows = seq<seq<string>>

  /** One single-word row per follower, in order. */
  function Singles(ws: seq<string>): Rows
  {
    if ws == [] then [] else Singles(ws[..|ws| - 1]) + [[ws[|ws| - 1]]]
  }

  /** One two-word row per follower pair, in order. */
  function Pairs(ps: seq<(string, string)>): Rows
  {
    if ps == [] then [] else Pairs(ps[..|ps| - 1]) + [[ps[|ps| - 1].0, ps[|ps| - 1].1]]
  }

  lemma {:induction false} SinglesSpec(ws: seq<string>)
    ensures |Singles(ws)| == |ws|
    ensures forall k :: 0 <= k < |ws| ==> Singles(ws)[k] == [ws[k]]
    decreases |ws|
  {
    if ws != [] {
      SinglesSpec(ws[..|ws| - 1]);
    }
  }

  lemma {:induction false} PairsSpec(ps: seq<(string, string)>)
    ensures |Pairs(ps)| == |ps|
    ensures forall k :: 0 <= k < |ps| ==> Pairs(ps)[k] == [ps[k].0, ps[k].1]
    decreases |ps|
  {
    if ps != [] {
      PairsSpec(ps[..|ps| - 1]);
    }
  }

  /** The rows `WordFollower` yields for `word`, or the `ValueError` it raises. */
  function WordFollower(db: Database, word: string, arity: int): Result<Rows, LookupError>
  {
    if arity == BIGRAM then
      match db.bigrams(word)
      case None => Failure(SelectFailed(word))
      case Some(ws) => Success(Singles(ws))
    else if arity == TRIGRAM then
      match db.trigrams(word)
      case None => Failure(SelectFailed(word))
      case Some(ps) => Success(Pairs(ps))
    else
      Failure(ArityNotImplemented(arity))
  }

  /**
   * Only arities 2 and 3 are implemented; a failing SELECT is an error; each row holds
   * `arity - 1` words, one row per follower the store lists, in the store's order.
   */
  lemma WordFollowerSpec(db: Database, word: string, arity: int)
    ensures var r := WordFollower(db, word, arity);
      && (r.Success? ==> arity == BIGRAM || arity == TRIGRAM)
      && (r.Success? ==> forall row :: row in r.value ==> |row| == arity - 1)
      && (arity != BIGRAM && arity != TRIGRAM ==> r == Failure(ArityNotImplemented(arity)))
      && (arity == BIGRAM ==> match db.bigrams(word)
          case None => r == Failure(SelectFailed(word))
          case Some(ws) => r.Success? && |r.value| == |ws| && forall k :: 0 <= k < |ws| ==> r.value[k] == [ws[k]])
      && (arity == TRIGRAM ==> match db.trigrams(word)
          case None => r == Failure(SelectFailed(word))
          case Some(ps) => r.Success? && |r.value| == |ps| && forall k :: 0 <= k < |ps| ==> r.value[k] == [ps[k].0, ps[k].1])
  {
    if arity == BIGRAM && db.bigrams(word).Some? {
      SinglesSpec(db.bigrams(word).value);
    } else if arity == TRIGRAM && db.trigrams(word).Some? {
      PairsSpec(db.trigrams(word).value);
    }
  }

  /**
   * A word tree `{word, followWordObjs}`. For trigrams the second word of a follower
   * tuple stays in `follow` as a bare string in front of the subtrees.
   */
  datatype Node = Node(word: string, follow: seq<Entry>)
  datatype Entry = Sub(node: Node) | Bare(text: string)

  /** The first argument of `makeWordTree`: a single root word, or a follower tuple. */
  datatype Seed = RootWord(root: string) | Tuple(words: seq<string>)

  /** The root word is treated as the one-element tuple `[word]`. */
  function SeedWords(seed: Seed): seq<string>
  {
    match seed
    case RootWord(w) => [w]
    case Tuple(ws) => ws
  }

  predicate SeedOk(seed: Seed)
  {
    |SeedWords(seed)| >= 1
  }

  function Bares(ws: seq<string>): seq<Entry>
  {
    seq(|ws|, i requires 0 <= i < |ws| => Bare(ws[i]))
  }

  /** Every tuple has a first word. */
  ghost predicate RowsOk(rows: Rows)
  {
    forall row :: row in rows ==> |row| >= 1
  }

  /** Every tuple is a single follower word. */
  ghost predicate BigramRows(rows: Rows)
  {
    forall row :: row in rows ==> |row| == 1
  }

  ghost predicate CacheShaped(cache: map<string, Rows>)
  {
    forall w :: w in cache ==> RowsOk(cache[w])
  }

  ghost predicate BigramCache(cache: map<string, Rows>)
  {
    forall w :: w in cache ==> BigramRows(cache[w])
  }

  /** What `getSortedFollowers` answers for `word` when the cache holds `cache`. */
  function Lookup(cache: map<string, Rows>, db: Database, word: string, arity: int): Result<Rows, LookupError>
  {
    if word in cache then Success(cache[word]) else WordFollower(db, word, arity)
  }

  /** Every answer of a well-shaped cache or of the store has a first word per row. */
  lemma LookupShaped(cache: map<string, Rows>, db: Database, word: string, arity: int)
    requires CacheShaped(cache)
    ensures Lookup(cache, db, word, arity).Success? ==> RowsOk(Lookup(cache, db, word, arity).value)
  {
    if word !in cache {
      WordFollowerSpec(db, word, arity);
    }
  }

  /**
   * `cache1` only adds to `cache0`, and each added entry is what the store answers
   * under `arity`: then every lookup under `arity` gives the same answer in both.
   */
  ghost predicate Agrees(cache0: map<string, Rows>, cache1: map<string, Rows>, db: Database, arity: int)
  {
    && cache0.Keys <= cache1.Keys
    && (forall w :: w in cache0 ==> cache1[w] == cache0[w])
    && (forall w :: w in cache1 && w !in cache0 ==> WordFollower(db, w, arity) == Success(cache1[w]))
  }

  /** `min(max(branch, 0), n)`: how many followers the loop of `makeWordTree` pursues. */
  function Take(branch: int, n: nat): (k: nat)
    ensures k <= n
    ensures branch >= 0 ==> k <= branch
    ensures branch <= 0 ==> k == 0
    ensures 0 <= branch <= n ==> k == branch
    ensures branch >= n ==> k == n
  {
    if branch <= 0 then 0 else if branch < n then branch else n
  }

  /**
   * The tree `makeWordTree(seed, arity, maxDepth, maxBranch)` returns when the cache
   * holds `cache`; `None` for the unchanged `wordTree` argument when `maxDepth <= 0`.
   * Recursive calls use the default breadth: the source does not forward `maxBranch`.
   */
  ghost function BuildTree(cache: map<string, Rows>, db: Database, arity: int, seed: Seed,
                           maxDepth: int, maxBranch: int): (r: Result<Option<Node>, LookupError>)
    requires CacheShaped(cache) && SeedOk(seed)
    decreases if maxDepth < 0 then 0 else maxDepth, 0, 0
  {
    if maxDepth <= 0 then Success(None)
    else
      var ws := SeedWords(seed);
      var base := Bares(ws[1..]);
      if 1 + |ws[1..]| >= maxDepth then Success(Some(Node(ws[0], base)))
      else
        LookupShaped(cache, db, ws[|ws| - 1], arity);
        match Lookup(cache, db, ws[|ws| - 1], arity)
        case Failure(e) => Failure(e)
        case Success(rows) =>
          match BuildChildren(cache, db, arity, rows[..Take(maxBranch, |rows|)], maxDepth - 1)
          case Failure(e) => Failure(e)
          case Success(kids) => Success(Some(Node(ws[0], base + kids)))
  }

  /**
   * `makeWordTree` answers the unchanged empty argument exactly when `maxDepth <= 0`; any
   * tree it builds is labelled with the seed's first word.
   */
  lemma BuildTreeRoot(cache: map<string, Rows>, db: Database, arity: int, seed: Seed, maxDepth: int, maxBranch: int)
    requires CacheShaped(cache) && SeedOk(seed)
    ensures var r := BuildTree(cache, db, arity, seed, maxDepth, maxBranch);
      && (r == Success(None) <==> maxDepth <= 0)
      && (r.Success? && r.value.Some? ==> r.value.value.word == SeedWords(seed)[0])
  {
  }

  /** `BuildTree` for a node that is not expanded: its label and its bare leftover words. */
  lemma BuildTreeLeaf(cache: map<string, Rows>, db: Database, arity: int, seed: Seed, maxDepth: int, maxBranch: int)
    requires CacheShaped(cache) && SeedOk(seed) && maxDepth > 0
    requires 1 + |SeedWords(seed)[1..]| >= maxDepth
    ensures BuildTree(cache, db, arity, seed, maxDepth, maxBranch)
      == Success(Some(Node(SeedWords(seed)[0], Bares(SeedWords(seed)[1..]))))
  {
  }

  /** `BuildTree` for a node that is expanded, in terms of the lookup and the children. */
  lemma BuildTreeExpanded(cache: map<string, Rows>, db: Database, arity: int, seed: Seed, maxDepth: int, maxBranch: int)
    requires CacheShaped(cache) && SeedOk(seed) && maxDepth > 0
    requires 1 + |SeedWords(seed)[1..]| < maxDepth
    ensures var found := Lookup(cache, db, SeedWords(seed)[|SeedWords(seed)| - 1], arity);
      found.Failure? ==> BuildTree(cache, db, arity, seed, maxDepth, maxBranch) == Failure(found.error)
    ensures var found := Lookup(cache, db, SeedWords(seed)[|SeedWords(seed)| - 1], arity);
      found.Success? ==> RowsOk(found.value)
    ensures var ws := SeedWords(seed);
      var found := Lookup(cache, db, ws[|ws| - 1], arity);
      found.Success? ==>
        RowsOk(found.value) &&
        var ch := BuildChildren(cache, db, arity, found.value[..Take(maxBranch, |found.value|)], maxDepth - 1);
        BuildTree(cache, db, arity, seed, maxDepth, maxBranch)
          == if ch.Failure? then Failure(ch.error) else Success(Some(Node(ws[0], Bares(ws[1..]) + ch.value)))
  {
    LookupShaped(cache, db, SeedWords(seed)[|SeedWords(seed)| - 1], arity);
  }

  /**
   * The subtrees the loop of `makeWordTree` appends for `rows`, in order; the first
   * failing lookup aborts. Empty subtrees would be skipped, but for `depth >= 1`
   * there are none (`ChildrenAreSubtrees` in `TreeFacts`).
   */
  ghost function BuildChildren(cache: map<string, Rows>, db: Database, arity: int, rows: Rows,
                               depth: int): (r: Result<seq<Entry>, LookupError>)
    requires CacheShaped(cache) && RowsOk(rows) && depth >= 0
    decreases depth, 1, |rows|
  {
    if rows == [] then Success([])
    else
      var n := |rows|;
      match BuildChildren(cache, db, arity, rows[..n - 1], depth)
      case Failure(e) => Failure(e)
      case Success(kids) =>
        match BuildTree(cache, db, arity, Tuple(rows[n - 1]), depth, WORD_TREE_BREADTH)
        case Failure(e) => Failure(e)
        case Success(None) => Success(kids)
        case Success(Some(t)) => Success(kids + [Sub(t)])
  }

  /** Lookups agree between caches related by `Agrees`. */
  lemma LookupAgrees(cache0: map<string, Rows>, cache1: map<string, Rows>, db: Database, word: string, arity: int)
    requires Agrees(cache0, cache1, db, arity)
    ensures Lookup(cache0, db, word, arity) == Lookup(cache1, db, word, arity)
  {
  }

  lemma AgreesTrans(c0: map<string, Rows>, c1: map<string, Rows>, c2: map<string, Rows>, db: Database, arity: int)
    requires Agrees(c0, c1, db, arity) && Agrees(c1, c2, db, arity)
    ensures Agrees(c0, c2, db, arity)
  {
  }

  /** A tree built under `cache1` equals the one built under an agreeing `cache0`. */
  lemma {:induction false} BuildTreeAgrees(cache0: map<string, Rows>, cache1: map<string, Rows>, db: Database,
                                           arity: int, seed: Seed, maxDepth: int, maxBranch: int)
    requires CacheShaped(cache0) && CacheShaped(cache1) && SeedOk(seed)
    requires Agrees(cache0, cache1, db, arity)
    ensures BuildTree(cache0, db, arity, seed, maxDepth, maxBranch) == BuildTree(cache1, db, arity, seed, maxDepth, maxBranch)
    decreases if maxDepth < 0 then 0 else maxDepth, 0, 0
  {
    if maxDepth > 0 {
      var ws := SeedWords(seed);
      if 1 + |ws[1..]| < maxDepth {
        var found := Lookup(cache0, db, ws[|ws| - 1], arity);
        LookupAgrees(cache0, cache1, db, ws[|ws| - 1], arity);
        LookupShaped(cache0, db, ws[|ws| - 1], arity);
        if found.Success? {
          var rows := found.value;
          BuildChildrenAgrees(cache0, cache1, db, arity, rows[..Take(maxBranch, |rows|)], maxDepth - 1);
        }
      }
    }
  }

  lemma {:induction false} BuildChildrenAgrees(cache0: map<string, Rows>, cache1: map<string, Rows>, db: Database,
                                               arity: int, rows: Rows, depth: int)
    requires CacheShaped(cache0) && CacheShaped(cache1) && RowsOk(rows) && depth >= 0
    requires Agrees(cache0, cache1, db, arity)
    ensures BuildChildren(cache0, db, arity, rows, depth) == BuildChildren(cache1, db, arity, rows, depth)
    decreases depth, 1, |rows|
  {
    if rows != [] {
      var n := |rows|;
      BuildChildrenAgrees(cache0, cache1, db, arity, rows[..n - 1], depth);
      BuildTreeAgrees(cache0, cache1, db, arity, Tuple(rows[n - 1]), depth, WORD_TREE_BREADTH);
    }
  }

  /** One more follower: the children of `rows[..i + 1]` extend those of `rows[..i]` by the i-th subtree. */
  lemma ChildrenSnoc(cache: map<string, Rows>, db: Database, arity: int, rows: Rows, depth: int, i: nat,
                     kids: seq<Entry>, sub: Result<Option<Node>, LookupError>)
    requires CacheShaped(cache) && RowsOk(rows) && depth >= 0 && i < |rows|
    requires BuildChildren(cache, db, arity, rows[..i], depth) == Success(kids)
    requires sub == BuildTree(cache, db, arity, Tuple(rows[i]), depth, WORD_TREE_BREADTH)
    ensures sub.Failure? ==> BuildChildren(cache, db, arity, rows[..i + 1], depth) == Failure(sub.error)
    ensures sub == Success(None) ==> BuildChildren(cache, db, arity, rows[..i + 1], depth) == Success(kids)
    ensures sub.Success? && sub.value.Some? ==>
      BuildChildren(cache, db, arity, rows[..i + 1], depth) == Success(kids + [Sub(sub.value.value)])
  {
    assert rows[..i + 1][..i] == rows[..i];
    assert rows[..i + 1][i] == rows[i];
  }

  /**
   * One turn of the loop of `makeWordTree`: the subtree built under the grown cache `ci`
   * is the one `BuildChildren` expects under the cache `c0` of the call.
   */
  lemma ChildStep(c0: map<string, Rows>, ci: map<string, Rows>, c1: map<string, Rows>, db: Database, arity: int,
                  rows: Rows, depth: int, i: nat, kids: seq<Entry>, sub: Result<Option<Node>, LookupError>)
    requires CacheShaped(c0) && CacheShaped(ci) && RowsOk(rows) && depth >= 0 && i < |rows|
    requires Agrees(c0, ci, db, arity) && Agrees(ci, c1, db, arity)
    requires BuildChildren(c0, db, arity, rows[..i], depth) == Success(kids)
    requires sub == BuildTree(ci, db, arity, Tuple(rows[i]), depth, WORD_TREE_BREADTH)
    ensures Agrees(c0, c1, db, arity)
    ensures sub.Failure? ==> BuildChildren(c0, db, arity, rows[..i + 1], depth) == Failure(sub.error)
    ensures sub == Success(None) ==> BuildChildren(c0, db, arity, rows[..i + 1], depth) == Success(kids)
    ensures sub.Success? && sub.value.Some? ==>
      BuildChildren(c0, db, arity, rows[..i + 1], depth) == Success(kids + [Sub(sub.value.value)])
  {
    AgreesTrans(c0, ci, c1, db, arity);
    BuildTreeAgrees(c0, ci, db, arity, Tuple(rows[i]), depth, WORD_TREE_BREADTH);
    ChildrenSnoc(c0, db, arity, rows, depth, i, kids, sub);
  }

  /**
   * The expanded case of `makeWordTree`: the followers were looked up under `c0`, the
   * subtrees built under the grown cache `c1`; together they make `BuildTree` under `c0`.
   */
  lemma TreeStep(c0: map<string, Rows>, c1: map<string, Rows>, db: Database, arity: int, seed: Seed,
                 maxDepth: int, maxBranch: int, rows: Rows, kids: Result<seq<Entry>, LookupError>)
    requires CacheShaped(c0) && CacheShaped(c1) && SeedOk(seed) && maxDepth > 0
    requires 1 + |SeedWords(seed)[1..]| < maxDepth
    requires Lookup(c0, db, SeedWords(seed)[|SeedWords(seed)| - 1], arity) == Success(rows)
    requires RowsOk(rows) && Agrees(c0, c1, db, arity)
    requires kids == BuildChildren(c1, db, arity, rows[..Take(maxBranch, |rows|)], maxDepth - 1)
    ensures kids.Failure? ==> BuildTree(c0, db, arity, seed, maxDepth, maxBranch) == Failure(kids.error)
    ensures kids.Success? ==>
      BuildTree(c0, db, arity, seed, maxDepth, maxBranch)
        == Success(Some(Node(SeedWords(seed)[0], Bares(SeedWords(seed)[1..]) + kids.value)))
  {
    BuildChildrenAgrees(c0, c1, db, arity, rows[..Take(maxBranch, |rows|)], maxDepth - 1);
  }

  /** Once a prefix of the followers fails, every longer prefix fails the same way. */
  lemma {:induction false} ChildrenFailureSticks(cache: map<string, Rows>, db: Database, arity: int, rows: Rows,
                                                 depth: int, i: nat, j: nat)
    requires CacheShaped(cache) && RowsOk(rows) && depth >= 0
    requires i <= j <= |rows|
    requires BuildChildren(cache, db, arity, rows[..i], depth).Failure?
    ensures BuildChildren(cache, db, arity, rows[..j], depth) == BuildChildren(cache, db, arity, rows[..i], depth)
    decreases j - i
  {
    if j > i {
      ChildrenFailureSticks(cache, db, arity, rows, depth, i, j - 1);
      assert rows[..j][..j - 1] == rows[..j - 1];
    }
  }

  /**
   * `WordExplorer`: a follower cache keyed by the word alone (not by arity) in front
   * of the co-occurrence database.
   */
  class WordExplorer {
    const db: Database
    var cache: map<string, Rows>

    ghost predicate Valid()
      reads this
    {
      CacheShaped(cache)
    }

    constructor (db: Database)
      ensures Valid() && this.db == db && cache == map[]
    {
      this.db := db;
      cache := map[];
    }

    /**
     * `getSortedFollowers`: a hit returns the stored list whatever `arity` is now; a miss
     * asks the store once, copies its rows in order and stores them under `word`; a
     * failing query raises and leaves the cache as it was.
     */
    method GetSortedFollowers(word: string, arity: int) returns (r: Result<Rows, LookupError>)
      requires Valid()
      modifies this
      ensures Valid()
      ensures r == Lookup(old(cache), db, word, arity)
      ensures word in old(cache) ==> r == Success(old(cache)[word]) && cache == old(cache)
      ensures word !in old(cache) && r.Success? ==> cache == old(cache)[word := r.value]
      ensures r.Failure? ==> cache == old(cache)
      ensures Agrees(old(cache), cache, db, arity)
    {
      if word in cache {
        return Success(cache[word]);
      }
      var followers := WordFollower(db, word, arity);
      LookupShaped(cache, db, word, arity);
      if followers.Failure? {
        return followers;
      }
      var wordArr: Rows := [];
      for i := 0 to |followers.value|
        invariant wordArr == followers.value[..i]
      {
        wordArr := wordArr + [followers.value[i]];
      }
      assert wordArr == followers.value;
      cache := cache[word := wordArr];
      r := Success(wordArr);
    }

    /**
     * `makeWordTree`: the tree of `seed` with at most `maxBranch` followers at the top
     * and `WORD_TREE_BREADTH` below, exactly as `BuildTree` describes it for the cache
     * at the time of the call; the cache only gains entries the store agrees with.
     */
    method MakeWordTree(seed: Seed, arity: int, maxDepth: int, maxBranch: int)
      returns (r: Result<Option<Node>, LookupError>)
      requires Valid() && SeedOk(seed)
      modifies this
      ensures Valid()
      ensures Agrees(old(cache), cache, db, arity)
      ensures r == BuildTree(old(cache), db, arity, seed, maxDepth, maxBranch)
      decreases if maxDepth < 0 then 0 else maxDepth, 0
    {
      if maxDepth <= 0 {
        return Success(None);
      }
      var wordArr := SeedWords(seed);
      var word := wordArr[0];
      var base := Bares(wordArr[1..]);
      if 1 + |wordArr[1..]| >= maxDepth {
        return Success(Some(Node(word, base)));
      }
      ghost var c0 := cache;
      var found := GetSortedFollowers(wordArr[|wordArr| - 1], arity);
      if found.Failure? {
        return Failure(found.error);
      }
      var rows := found.value;
      LookupShaped(c0, db, wordArr[|wordArr| - 1], arity);
      ghost var c1 := cache;
      var kids := FollowTrees(rows, arity, maxDepth - 1, maxBranch);
      AgreesTrans(c0, c1, cache, db, arity);
      TreeStep(c0, c1, db, arity, seed, maxDepth, maxBranch, rows, kids);
      if kids.Failure? {
        return Failure(kids.error);
      }
      return Success(Some(Node(word, base + kids.value)));
    }

    /**
     * The loop of `makeWordTree` over the sorted followers: one subtree per follower
     * tuple, of depth `depth` and the default breadth, stopping after `maxBranch` of
     * them; a failing lookup aborts the whole tree.
     */
    method FollowTrees(rows: Rows, arity: int, depth: int, maxBranch: int)
      returns (r: Result<seq<Entry>, LookupError>)
      requires Valid() && RowsOk(rows) && depth >= 0
      modifies this
      ensures Valid()
      ensures Agrees(old(cache), cache, db, arity)
      ensures r == BuildChildren(old(cache), db, arity, rows[..Take(maxBranch, |rows|)], depth)
      decreases depth, 1
    {
      ghost var c0 := cache;
      ghost var m := Take(maxBranch, |rows|);
      var follow: seq<Entry> := [];
      var i := 0;
      while i < |rows|
        invariant 0 <= i <= m
        invariant Valid() && Agrees(c0, cache, db, arity)
        invariant BuildChildren(c0, db, arity, rows[..i], depth) == Success(follow)
        decreases |rows| - i
      {
        if i >= maxBranch {
          break;
        }
        ghost var ci := cache;
        var sub := MakeWordTree(Tuple(rows[i]), arity, depth, WORD_TREE_BREADTH);
        ChildStep(c0, ci, cache, db, arity, rows, depth, i, follow, sub);
        if sub.Failure? {
          ChildrenFailureSticks(c0, db, arity, rows, depth, i + 1, m);
          return Failure(sub.error);
        }
        if sub.value.Some? {
          follow := follow + [Sub(sub.value.value)];
        }
        i := i + 1;
      }
      assert i == m;
      return Success(follow);
    }
  }
}
