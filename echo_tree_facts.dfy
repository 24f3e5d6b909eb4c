/**
 * What the trees built by `makeWordTree` look like: the structure of each node, the
 * depth and breadth budgets, the node count under the defaults, the absence of bare
 * strings in bigram trees, and the arity-blind cache.
 */
module TreeFacts {
  import opened Wrappers
  import opened EchoTree

  /** Number of levels of a tree: a node without subtrees has height 1. */
  function Height(n: Node): nat
    decreases n, 1
  {
    1 + Tallest(n, |n.follow|)
  }

  /** The greatest height among the subtrees in `n.follow[..k]`, 0 if there is none. */
  function Tallest(n: Node, k: nat): nat
    requires k <= |n.follow|
    decreases n, 0, k
  {
    if k == 0 then 0
    else
      var e := n.follow[k - 1];
      var h := if e.Sub? then Height(e.node) else 0;
      var t := Tallest(n, k - 1);
      if h > t then h else t
  }

  /** Number of nodes of a tree. */
  function Size(n: Node): nat
    decreases n, 1
  {
    1 + SizeUpTo(n, |n.follow|)
  }

  /** Number of nodes in the subtrees among `n.follow[..k]`. */
  function SizeUpTo(n: Node, k: nat): nat
    requires k <= |n.follow|
    decreases n, 0, k
  {
    if k == 0 then 0
    else SizeUpTo(n, k - 1) + (if n.follow[k - 1].Sub? then Size(n.follow[k - 1].node) else 0)
  }

  /** Number of subtree entries (as opposed to bare strings) in `es`. */
  function Subs(es: seq<Entry>): nat
  {
    if es == [] then 0 else Subs(es[..|es| - 1]) + (if es[|es| - 1].Sub? then 1 else 0)
  }

  /**
   * The budget `makeWordTree` keeps: at most `depth` levels, at most `branch` subtrees
   * under the root and at most `WORD_TREE_BREADTH` under every other node.
   */
  ghost predicate Bounded(n: Node, depth: int, branch: int)
    decreases n
  {
    && depth >= 1
    && Subs(n.follow) <= branch
    && forall e :: e in n.follow && e.Sub? ==> Bounded(e.node, depth - 1, WORD_TREE_BREADTH)
  }

  /** Every subtree among `es` keeps a budget of `depth` levels and the default breadth. */
  ghost predicate SubtreesBounded(es: seq<Entry>, depth: int)
  {
    forall e :: e in es && e.Sub? ==> Bounded(e.node, depth, WORD_TREE_BREADTH)
  }

  /** `es` holds subtrees only, each within `depth` levels and the default breadth. */
  ghost predicate ChildrenBounded(es: seq<Entry>, depth: int)
  {
    (forall e :: e in es ==> e.Sub?) && SubtreesBounded(es, depth)
  }

  /** A tree whose follow lists hold only subtrees, as every bigram tree does. */
  ghost predicate Plain(n: Node)
    decreases n
  {
    forall e :: e in n.follow ==> e.Sub? && Plain(e.node)
  }

  /** `es` holds subtrees only, each of them plain. */
  ghost predicate PlainChildren(es: seq<Entry>)
  {
    forall e :: e in es ==> e.Sub? && Plain(e.node)
  }

  /** The largest tree the budget allows: one root over `branch` trees of depth `depth - 1`. */
  function MaxNodes(depth: int, branch: nat): nat
    decreases if depth < 0 then 0 else depth
  {
    if depth <= 0 then 0 else 1 + branch * MaxNodes(depth - 1, WORD_TREE_BREADTH)
  }

  /** The branch limit `makeWordTree` applies for a requested `maxBranch`. */
  function BranchLimit(maxBranch: int): nat
  {
    if maxBranch < 0 then 0 else maxBranch
  }

  lemma {:induction false} SubsConcat(a: seq<Entry>, b: seq<Entry>)
    ensures Subs(a + b) == Subs(a) + Subs(b)
    decreases |b|
  {
    if b != [] {
      var ab := a + b;
      assert ab != [];
      assert ab[..|ab| - 1] == a + b[..|b| - 1];
      assert ab[|ab| - 1] == b[|b| - 1];
      SubsConcat(a, b[..|b| - 1]);
      assert Subs(ab) == Subs(ab[..|ab| - 1]) + (if ab[|ab| - 1].Sub? then 1 else 0);
    } else {
      assert a + b == a;
    }
  }

  lemma {:induction false} SubsBares(ws: seq<string>)
    ensures Subs(Bares(ws)) == 0
    decreases |ws|
  {
    if ws != [] {
      assert Bares(ws)[..|ws| - 1] == Bares(ws[..|ws| - 1]);
      SubsBares(ws[..|ws| - 1]);
    }
  }

  lemma {:induction false} SubsAllSub(es: seq<Entry>)
    requires forall e :: e in es ==> e.Sub?
    ensures Subs(es) == |es|
    decreases |es|
  {
    if es != [] {
      assert es[|es| - 1] in es;
      assert forall e :: e in es[..|es| - 1] ==> e in es;
      SubsAllSub(es[..|es| - 1]);
    }
  }

  lemma {:induction false} SubsBound(es: seq<Entry>)
    ensures Subs(es) <= |es|
    decreases |es|
  {
    if es != [] {
      SubsBound(es[..|es| - 1]);
    }
  }

  /** A tree within the budget has at most `depth` levels. */
  lemma {:induction false} BoundedHeight(n: Node, depth: int, branch: int)
    requires Bounded(n, depth, branch)
    ensures Height(n) <= depth
    decreases n, 1
  {
    TallestBound(n, |n.follow|, depth - 1);
  }

  lemma {:induction false} TallestBound(n: Node, k: nat, depth: int)
    requires k <= |n.follow| && depth >= 0
    requires SubtreesBounded(n.follow, depth)
    ensures Tallest(n, k) <= depth
    decreases n, 0, k
  {
    if k > 0 {
      TallestBound(n, k - 1, depth);
      var e := n.follow[k - 1];
      if e.Sub? {
        assert e in n.follow;
        BoundedHeight(e.node, depth, WORD_TREE_BREADTH);
      }
    }
  }

  /** A tree within the budget has at most `MaxNodes(depth, branch)` nodes. */
  lemma {:induction false} BoundedSize(n: Node, depth: int, branch: nat)
    requires Bounded(n, depth, branch)
    ensures Size(n) <= MaxNodes(depth, branch)
    decreases n, 1
  {
    SizeUpToBound(n, |n.follow|, depth - 1);
    assert n.follow[..|n.follow|] == n.follow;
    var m := MaxNodes(depth - 1, WORD_TREE_BREADTH);
    assert (branch - Subs(n.follow)) * m >= 0;
    assert Subs(n.follow) * m <= branch * m;
  }

  lemma {:induction false} SizeUpToBound(n: Node, k: nat, depth: int)
    requires k <= |n.follow| && depth >= 0
    requires SubtreesBounded(n.follow, depth)
    ensures SizeUpTo(n, k) <= Subs(n.follow[..k]) * MaxNodes(depth, WORD_TREE_BREADTH)
    decreases n, 0, k
  {
    if k > 0 {
      var m := MaxNodes(depth, WORD_TREE_BREADTH);
      var front := n.follow[..k - 1];
      SizeUpToBound(n, k - 1, depth);
      assert n.follow[..k][..k - 1] == front;
      assert Subs(n.follow[..k]) == Subs(front) + (if n.follow[k - 1].Sub? then 1 else 0);
      var e := n.follow[k - 1];
      if e.Sub? {
        assert e in n.follow;
        BoundedSize(e.node, depth, WORD_TREE_BREADTH);
        assert (Subs(front) + 1) * m == Subs(front) * m + m;
      }
    }
  }

  /** A node over bare words and at most `branch` subtrees, each within one level less. */
  lemma NodeBounded(word: string, ws: seq<string>, kids: seq<Entry>, depth: int, branch: int)
    requires depth >= 1 && |kids| <= branch
    requires ChildrenBounded(kids, depth - 1)
    ensures Bounded(Node(word, Bares(ws) + kids), depth, branch)
  {
    SubsBares(ws);
    SubsAllSub(kids);
    SubsConcat(Bares(ws), kids);
    assert forall e :: e in Bares(ws) ==> e.Bare?;
    assert forall e :: e in Bares(ws) + kids ==> e in Bares(ws) || e in kids;
  }

  /**
   * Every tree `makeWordTree` builds keeps the budget: `maxDepth` levels, `maxBranch`
   * subtrees under the root and `WORD_TREE_BREADTH` below it.
   */
  lemma {:induction false} BuildTreeBounded(cache: map<string, Rows>, db: Database, arity: int, seed: Seed,
                                            maxDepth: int, maxBranch: int)
    requires CacheShaped(cache) && SeedOk(seed)
    ensures var r := BuildTree(cache, db, arity, seed, maxDepth, maxBranch);
      r.Success? && r.value.Some? ==> Bounded(r.value.value, maxDepth, BranchLimit(maxBranch))
    decreases if maxDepth < 0 then 0 else maxDepth, 0, 2
  {
    if maxDepth > 0 {
      var ws := SeedWords(seed);
      if 1 + |ws[1..]| >= maxDepth {
        BuildTreeLeaf(cache, db, arity, seed, maxDepth, maxBranch);
        NodeBounded(ws[0], ws[1..], [], maxDepth, BranchLimit(maxBranch));
        assert Bares(ws[1..]) + [] == Bares(ws[1..]);
      } else {
        ExpandedBounded(cache, db, arity, seed, maxDepth, maxBranch);
      }
    }
  }

  lemma {:induction false} ExpandedBounded(cache: map<string, Rows>, db: Database, arity: int, seed: Seed,
                                           maxDepth: int, maxBranch: int)
    requires CacheShaped(cache) && SeedOk(seed) && maxDepth > 0
    requires 1 + |SeedWords(seed)[1..]| < maxDepth
    ensures var r := BuildTree(cache, db, arity, seed, maxDepth, maxBranch);
      r.Success? && r.value.Some? ==> Bounded(r.value.value, maxDepth, BranchLimit(maxBranch))
    decreases maxDepth, 0, 1
  {
    var ws := SeedWords(seed);
    BuildTreeExpanded(cache, db, arity, seed, maxDepth, maxBranch);
    var found := Lookup(cache, db, ws[|ws| - 1], arity);
    if found.Success? {
      var rows := found.value;
      PickedBounded(cache, db, arity, rows, maxDepth, maxBranch);
      var ch := BuildChildren(cache, db, arity, rows[..Take(maxBranch, |rows|)], maxDepth - 1);
      if ch.Success? {
        NodeBounded(ws[0], ws[1..], ch.value, maxDepth, BranchLimit(maxBranch));
      }
    }
  }

  /** The children built from the first `maxBranch` followers are at most that many, and bounded. */
  lemma {:induction false} PickedBounded(cache: map<string, Rows>, db: Database, arity: int, rows: Rows,
                                         maxDepth: int, maxBranch: int)
    requires CacheShaped(cache) && RowsOk(rows) && maxDepth > 1
    ensures var ch := BuildChildren(cache, db, arity, rows[..Take(maxBranch, |rows|)], maxDepth - 1);
      ch.Success? ==> |ch.value| <= BranchLimit(maxBranch) && ChildrenBounded(ch.value, maxDepth - 1)
    decreases maxDepth, 0, 0
  {
    var picked := rows[..Take(maxBranch, |rows|)];
    assert RowsOk(picked) by {
      assert forall row :: row in picked ==> row in rows;
    }
    var ch := BuildChildren(cache, db, arity, picked, maxDepth - 1);
    if ch.Success? {
      assert |ch.value| <= BranchLimit(maxBranch) by {
        ChildrenAreSubtrees(cache, db, arity, picked, maxDepth - 1);
      }
      BuildChildrenBounded(cache, db, arity, picked, maxDepth - 1);
    }
  }

  lemma {:induction false} BuildChildrenBounded(cache: map<string, Rows>, db: Database, arity: int,
                                                rows: Rows, depth: int)
    requires CacheShaped(cache) && RowsOk(rows) && depth >= 0
    ensures var r := BuildChildren(cache, db, arity, rows, depth);
      r.Success? ==> ChildrenBounded(r.value, depth)
    decreases depth, 1, |rows|
  {
    if rows != [] {
      var n := |rows|;
      assert RowsOk(rows[..n - 1]) by {
        assert forall row :: row in rows[..n - 1] ==> row in rows;
      }
      assert rows[n - 1] in rows;
      BuildChildrenBounded(cache, db, arity, rows[..n - 1], depth);
      BuildTreeBounded(cache, db, arity, Tuple(rows[n - 1]), depth, WORD_TREE_BREADTH);
    }
  }

  /**
   * With the default depth 3 and breadth 5 a tree has at most 3 levels (deepest node at
   * depth 2) and at most 1 + 5 + 25 nodes.
   */
  lemma DefaultTreeBounds(cache: map<string, Rows>, db: Database, arity: int, seed: Seed)
    requires CacheShaped(cache) && SeedOk(seed)
    ensures var r := BuildTree(cache, db, arity, seed, WORD_TREE_DEPTH, WORD_TREE_BREADTH);
      r.Success? && r.value.Some? ==> Height(r.value.value) <= 3 && Size(r.value.value) <= 31
  {
    BuildTreeBounded(cache, db, arity, seed, WORD_TREE_DEPTH, WORD_TREE_BREADTH);
    var r := BuildTree(cache, db, arity, seed, WORD_TREE_DEPTH, WORD_TREE_BREADTH);
    if r.Success? && r.value.Some? {
      BoundedHeight(r.value.value, WORD_TREE_DEPTH, WORD_TREE_BREADTH);
      BoundedSize(r.value.value, WORD_TREE_DEPTH, WORD_TREE_BREADTH);
    }
  }

  /** The loop over followers succeeds exactly when every follower's subtree does. */
  lemma {:induction false} ChildrenSucceed(cache: map<string, Rows>, db: Database, arity: int,
                                           rows: Rows, depth: int)
    requires CacheShaped(cache) && RowsOk(rows) && depth >= 0
    ensures BuildChildren(cache, db, arity, rows, depth).Success?
      <==> forall k :: 0 <= k < |rows| ==> BuildTree(cache, db, arity, Tuple(rows[k]), depth, WORD_TREE_BREADTH).Success?
    decreases |rows|
  {
    if rows != [] {
      var n := |rows|;
      var front := rows[..n - 1];
      assert RowsOk(front) by {
        assert forall row :: row in front ==> row in rows;
      }
      assert rows[n - 1] in rows;
      ChildrenSucceed(cache, db, arity, front, depth);
      assert forall k :: 0 <= k < n - 1 ==> front[k] == rows[k];
    }
  }

  /**
   * `kids` are the subtrees of the follower tuples `rows`, one each and in order: the
   * tree of the tuple, labelled with its first word, with `depth` levels and the default
   * breadth.
   */
  ghost predicate SubtreesOf(cache: map<string, Rows>, db: Database, arity: int, rows: Rows, depth: int,
                             kids: seq<Entry>)
    requires CacheShaped(cache)
  {
    && RowsOk(rows)
    && |kids| == |rows|
    && forall k :: 0 <= k < |rows| ==>
         && kids[k].Sub?
         && kids[k].node.word == rows[k][0]
         && BuildTree(cache, db, arity, Tuple(rows[k]), depth, WORD_TREE_BREADTH) == Success(Some(kids[k].node))
  }

  /**
   * When the loop over followers succeeds it yields one subtree per follower, so the
   * source's filter of empty subtrees never drops a child.
   */
  lemma {:induction false} ChildrenAreSubtrees(cache: map<string, Rows>, db: Database, arity: int,
                                               rows: Rows, depth: int)
    requires CacheShaped(cache) && RowsOk(rows) && depth >= 1
    requires BuildChildren(cache, db, arity, rows, depth).Success?
    ensures SubtreesOf(cache, db, arity, rows, depth, BuildChildren(cache, db, arity, rows, depth).value)
    decreases |rows|
  {
    if rows != [] {
      var n := |rows|;
      var front := rows[..n - 1];
      assert RowsOk(front) by {
        assert forall row :: row in front ==> row in rows;
      }
      assert rows[n - 1] in rows;
      assert rows[..n] == rows;
      var ch := BuildChildren(cache, db, arity, front, depth);
      assert ch.Success?;
      ChildrenAreSubtrees(cache, db, arity, front, depth);
      var t := BuildTree(cache, db, arity, Tuple(rows[n - 1]), depth, WORD_TREE_BREADTH);
      BuildTreeRoot(cache, db, arity, Tuple(rows[n - 1]), depth, WORD_TREE_BREADTH);
      ChildrenSnoc(cache, db, arity, rows, depth, n - 1, ch.value, t);
      assert t.Success? && t.value.Some?;
      var all := ch.value + [Sub(t.value.value)];
      assert BuildChildren(cache, db, arity, rows, depth) == Success(all);
      forall k | 0 <= k < n
        ensures all[k].Sub? && all[k].node.word == rows[k][0]
        ensures BuildTree(cache, db, arity, Tuple(rows[k]), depth, WORD_TREE_BREADTH) == Success(Some(all[k].node))
      {
        if k < n - 1 {
          assert all[k] == ch.value[k];
          assert front[k] == rows[k];
        }
      }
    }
  }

  /**
   * The shape of a node `makeWordTree` returns: its label is the seed's first word and its
   * follow list starts with the seed's remaining words as bare strings. A node is
   * expanded exactly when `1 + #remaining < maxDepth`; then the bare strings are followed
   * by the subtrees of the first `min(maxBranch, #followers)` followers of the seed's
   * last word, in store order, each one level shallower and of the default breadth.
   */
  lemma TreeShape(cache: map<string, Rows>, db: Database, arity: int, seed: Seed, maxDepth: int, maxBranch: int)
    requires CacheShaped(cache) && SeedOk(seed)
    ensures var r := BuildTree(cache, db, arity, seed, maxDepth, maxBranch);
      var ws := SeedWords(seed);
      r.Success? && r.value.Some? ==>
        && r.value.value.word == ws[0]
        && (1 + |ws[1..]| >= maxDepth ==> r.value.value.follow == Bares(ws[1..]))
        && (1 + |ws[1..]| < maxDepth ==>
              && Lookup(cache, db, ws[|ws| - 1], arity).Success?
              && var rows := Lookup(cache, db, ws[|ws| - 1], arity).value;
                 && |r.value.value.follow| >= |ws| - 1
                 && r.value.value.follow[..|ws| - 1] == Bares(ws[1..])
                 && SubtreesOf(cache, db, arity, rows[..Take(maxBranch, |rows|)], maxDepth - 1,
                               r.value.value.follow[|ws| - 1..]))
  {
    var r := BuildTree(cache, db, arity, seed, maxDepth, maxBranch);
    var ws := SeedWords(seed);
    if r.Success? && r.value.Some? {
      BuildTreeRoot(cache, db, arity, seed, maxDepth, maxBranch);
      if 1 + |ws[1..]| >= maxDepth {
        BuildTreeLeaf(cache, db, arity, seed, maxDepth, maxBranch);
      } else {
        BuildTreeExpanded(cache, db, arity, seed, maxDepth, maxBranch);
        var rows := Lookup(cache, db, ws[|ws| - 1], arity).value;
        var picked := rows[..Take(maxBranch, |rows|)];
        assert RowsOk(picked) by {
          assert forall row :: row in picked ==> row in rows;
        }
        ChildrenAreSubtrees(cache, db, arity, picked, maxDepth - 1);
        var kids := BuildChildren(cache, db, arity, picked, maxDepth - 1).value;
        assert r.value.value.follow == Bares(ws[1..]) + kids;
        assert r.value.value.follow[|ws| - 1..] == kids;
      }
    }
  }

  /** Looking up a word under arity 2 in a cache of single-word rows gives single-word rows. */
  lemma BigramLookup(cache: map<string, Rows>, db: Database, word: string)
    requires BigramCache(cache)
    ensures Lookup(cache, db, word, BIGRAM).Success? ==> BigramRows(Lookup(cache, db, word, BIGRAM).value)
  {
    if word !in cache {
      WordFollowerSpec(db, word, BIGRAM);
    }
  }

  /** A cache grown by bigram lookups keeps only single-word rows. */
  lemma AgreesBigram(c0: map<string, Rows>, c1: map<string, Rows>, db: Database)
    requires BigramCache(c0) && Agrees(c0, c1, db, BIGRAM)
    ensures BigramCache(c1)
  {
    forall w | w in c1
      ensures BigramRows(c1[w])
    {
      if w !in c0 {
        WordFollowerSpec(db, w, BIGRAM);
      }
    }
  }

  ghost predicate SingleWord(seed: Seed)
  {
    |SeedWords(seed)| == 1
  }

  /** A bigram tree grown from one word holds no bare strings anywhere. */
  lemma {:induction false} BigramTreePlain(cache: map<string, Rows>, db: Database, seed: Seed,
                                           maxDepth: int, maxBranch: int)
    requires CacheShaped(cache) && BigramCache(cache) && SingleWord(seed)
    ensures var r := BuildTree(cache, db, BIGRAM, seed, maxDepth, maxBranch);
      r.Success? && r.value.Some? ==> Plain(r.value.value)
    decreases if maxDepth < 0 then 0 else maxDepth, 0, 0
  {
    if maxDepth > 0 {
      var ws := SeedWords(seed);
      assert ws[1..] == [];
      if 1 + |ws[1..]| < maxDepth {
        LookupShaped(cache, db, ws[0], BIGRAM);
        BigramLookup(cache, db, ws[0]);
        var found := Lookup(cache, db, ws[0], BIGRAM);
        if found.Success? {
          var rows := found.value;
          var picked := rows[..Take(maxBranch, |rows|)];
          assert RowsOk(picked) && BigramRows(picked) by {
            assert forall row :: row in picked ==> row in rows;
          }
          BigramChildrenPlain(cache, db, picked, maxDepth - 1);
          var ch := BuildChildren(cache, db, BIGRAM, picked, maxDepth - 1);
          if ch.Success? {
            assert Bares(ws[1..]) + ch.value == ch.value;
          }
        }
      }
    }
  }

  lemma {:induction false} BigramChildrenPlain(cache: map<string, Rows>, db: Database, rows: Rows, depth: int)
    requires CacheShaped(cache) && BigramCache(cache) && RowsOk(rows) && BigramRows(rows) && depth >= 0
    ensures var r := BuildChildren(cache, db, BIGRAM, rows, depth);
      r.Success? ==> PlainChildren(r.value)
    decreases depth, 1, |rows|
  {
    if rows != [] {
      var n := |rows|;
      assert RowsOk(rows[..n - 1]) && BigramRows(rows[..n - 1]) by {
        assert forall row :: row in rows[..n - 1] ==> row in rows;
      }
      assert rows[n - 1] in rows;
      BigramChildrenPlain(cache, db, rows[..n - 1], depth);
      BigramTreePlain(cache, db, Tuple(rows[n - 1]), depth, WORD_TREE_BREADTH);
    }
  }

  /** The cache is keyed by the word alone: a hit answers the same under every arity. */
  lemma CachedIgnoresArity(cache: map<string, Rows>, db: Database, word: string, arity: int, other: int)
    requires word in cache
    ensures Lookup(cache, db, word, arity) == Lookup(cache, db, word, other) == Success(cache[word])
  {
  }

  /** A store with the bigram a-b and the trigram a-b-c. */
  function SampleDb(): Database
  {
    Database(
      w => if w == "a" then Some(["b"]) else if w == "b" then Some([]) else None,
      w => if w == "a" then Some([("b", "c")]) else None)
  }

  /**
   * After a trigram lookup of "a" has filled the cache, a bigram lookup of "a" answers the
   * trigram rows, not what the store holds for bigrams.
   */
  lemma StaleAcrossArity()
    ensures var db := SampleDb();
      var grown := map["a" := [["b", "c"]]];
      && Agrees(map[], grown, db, TRIGRAM)
      && Lookup(grown, db, "a", BIGRAM) == Success([["b", "c"]])
      && WordFollower(db, "a", BIGRAM) == Success([["b"]])
  {
    var db := SampleDb();
    WordFollowerSpec(db, "a", TRIGRAM);
    WordFollowerSpec(db, "a", BIGRAM);
    assert WordFollower(db, "a", TRIGRAM).value == [["b", "c"]];
    assert WordFollower(db, "a", BIGRAM).value == [["b"]];
  }

  /**
   * From an empty cache, the default tree of "a" is "a" over "b", and "b" has no followers;
   * a word the store cannot select fails the whole tree.
   */
  lemma SampleTrees()
    ensures BuildTree(map[], SampleDb(), BIGRAM, RootWord("a"), WORD_TREE_DEPTH, WORD_TREE_BREADTH)
      == Success(Some(Node("a", [Sub(Node("b", []))])))
    ensures BuildTree(map[], SampleDb(), BIGRAM, RootWord("z"), WORD_TREE_DEPTH, WORD_TREE_BREADTH)
      == Failure(SelectFailed("z"))
  {
    var db := SampleDb();
    var c: map<string, Rows> := map[];
    WordFollowerSpec(db, "a", BIGRAM);
    WordFollowerSpec(db, "b", BIGRAM);
    WordFollowerSpec(db, "z", BIGRAM);
    var none: Rows := [];
    assert Lookup(c, db, "b", BIGRAM) == Success(none);
    assert none[..Take(WORD_TREE_BREADTH, |none|)] == none;
    assert BuildChildren(c, db, BIGRAM, none, 1) == Success([]);
    TreeStep(c, c, db, BIGRAM, Tuple(["b"]), 2, WORD_TREE_BREADTH, none, Success([]));
    assert SeedWords(Tuple(["b"]))[1..] == [];
    assert Bares(SeedWords(Tuple(["b"]))[1..]) + [] == [];
    var leaf := BuildTree(c, db, BIGRAM, Tuple(["b"]), 2, WORD_TREE_BREADTH);
    assert leaf == Success(Some(Node("b", [])));
    var rows: Rows := [["b"]];
    assert WordFollower(db, "a", BIGRAM).value == rows;
    assert Lookup(c, db, "a", BIGRAM) == Success(rows);
    assert rows[..Take(WORD_TREE_BREADTH, |rows|)] == rows;
    assert rows[..1] == rows;
    assert BuildChildren(c, db, BIGRAM, rows[..0], 2) == Success([]);
    ChildrenSnoc(c, db, BIGRAM, rows, 2, 0, [], leaf);
    assert rows[..0 + 1] == rows[..Take(WORD_TREE_BREADTH, |rows|)];
    assert [] + [Sub(Node("b", []))] == [Sub(Node("b", []))];
    TreeStep(c, c, db, BIGRAM, RootWord("a"), 3, WORD_TREE_BREADTH, rows, Success([Sub(Node("b", []))]));
    assert SeedWords(RootWord("a"))[1..] == [];
    assert Bares(SeedWords(RootWord("a"))[1..]) + [Sub(Node("b", []))] == [Sub(Node("b", []))];
  }
}
