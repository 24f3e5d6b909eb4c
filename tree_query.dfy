/**
 * The evaluator's walks over an echo tree: the flattened label string, the word set
 * read back from it, the depth at which a word first appears, and the regrouping of a
 * full default tree into word sequences. The walks index every follow entry as a
 * subtree, so they are defined on plain trees (the bigram trees).
 */
module TreeQuery {
  import opened Wrappers
  import opened Text
  import opened EchoTree
  import opened TreeFacts
  import opened Performance

  /** The labels of a tree in depth-first order, parents before their subtrees. */
  function Preorder(n: Node): seq<string>
    requires Plain(n)
    decreases n, 1
  {
    [n.word] + PreorderUpTo(n, |n.follow|)
  }

  /** The labels of the subtrees `n.follow[..k]`, one subtree after the other. */
  function PreorderUpTo(n: Node, k: nat): seq<string>
    requires Plain(n) && k <= |n.follow|
    decreases n, 0, k
  {
    if k == 0 then []
    else
      assert n.follow[k - 1] in n.follow;
      PreorderUpTo(n, k - 1) + Preorder(n.follow[k - 1].node)
  }

  /** Each word preceded by one space, concatenated. */
  function SpacedWords(ws: seq<string>): string
  {
    if ws == [] then "" else SpacedWords(ws[..|ws| - 1]) + " " + ws[|ws| - 1]
  }

  lemma {:induction false} SpacedWordsConcat(a: seq<string>, b: seq<string>)
    ensures SpacedWords(a + b) == SpacedWords(a) + SpacedWords(b)
    decreases |b|
  {
    if b == [] {
      assert a + b == a;
    } else {
      var n := |b|;
      assert (a + b)[..|a + b| - 1] == a + b[..n - 1];
      SpacedWordsConcat(a, b[..n - 1]);
    }
  }

  /**
   * `extractWordSeqsHelper`: the loop appends the flattened subtrees after the node's
   * own ` word`, so the result is every label of the tree, in preorder, each preceded
   * by a space.
   */
  method ExtractWordSeqsHelper(n: Node) returns (res: string)
    requires Plain(n)
    ensures res == SpacedWords(Preorder(n))
    decreases n
  {
    res := "";
    res := res + " " + n.word;
    assert res == SpacedWords([n.word]);
    var i := 0;
    while i < |n.follow|
      invariant 0 <= i <= |n.follow|
      invariant res == SpacedWords([n.word] + PreorderUpTo(n, i))
    {
      assert n.follow[i] in n.follow;
      var sub := ExtractWordSeqsHelper(n.follow[i].node);
      SpacedWordsConcat([n.word] + PreorderUpTo(n, i), Preorder(n.follow[i].node));
      assert [n.word] + PreorderUpTo(n, i + 1) == [n.word] + PreorderUpTo(n, i) + Preorder(n.follow[i].node);
      res := res + sub;
      i := i + 1;
    }
  }

  /** The flattened string is the labels joined by spaces after an empty first piece. */
  lemma {:induction false} SpacedWordsIsJoin(ws: seq<string>)
    ensures SpacedWords(ws) == Join([""] + ws, ' ')
    decreases |ws|
  {
    if ws != [] {
      var n := |ws|;
      SpacedWordsIsJoin(ws[..n - 1]);
      assert ([""] + ws)[..|[""] + ws| - 1] == [""] + ws[..n - 1];
    }
  }

  /** No label holds the separator `' '`. */
  ghost predicate NoSpaceLabels(ws: seq<string>)
  {
    forall i :: 0 <= i < |ws| ==> ' ' !in ws[i]
  }

  /** Splitting the flattened string on `' '` gives back an empty piece and then the labels. */
  lemma SpacedSplit(ws: seq<string>)
    requires NoSpaceLabels(ws)
    ensures SplitOn(SpacedWords(ws), ' ') == [""] + ws
  {
    SpacedWordsIsJoin(ws);
    var parts := [""] + ws;
    assert forall k :: 0 <= k < |parts| ==> ' ' !in parts[k] by {
      forall k | 0 <= k < |parts|
        ensures ' ' !in parts[k]
      {
        if k > 0 {
          assert parts[k] == ws[k - 1];
        }
      }
    }
    SplitJoin(parts, ' ');
  }

  /** `extractWordSet`, on the string `extractWordSeqsHelper` produced: the first lowered piece and the set of the others. */
  function WordSet(n: Node): (string, set<string>)
    requires Plain(n)
  {
    var parts := SplitOn(SpacedWords(Preorder(n)), ' ');
    (Lower(parts[0]), set i | 1 <= i < |parts| :: Lower(parts[i]))
  }

  /** `extractWordSet`: split the flattened tree on spaces, lower every piece, split off the first. */
  method ExtractWordSet(n: Node) returns (rootWord: string, flatSet: set<string>)
    requires Plain(n)
    ensures (rootWord, flatSet) == WordSet(n)
  {
    var flat := ExtractWordSeqsHelper(n);
    var pieces := SplitOn(flat, ' ');
    var lowered: seq<string> := [];
    for i := 0 to |pieces|
      invariant |lowered| == i
      invariant forall j :: 0 <= j < i ==> lowered[j] == Lower(pieces[j])
    {
      lowered := lowered + [Lower(pieces[i])];
    }
    rootWord := lowered[0];
    flatSet := set w | w in lowered[1..];
    assert flatSet == set i | 1 <= i < |pieces| :: Lower(pieces[i]) by {
      forall w | w in flatSet
        ensures exists i :: 1 <= i < |pieces| && w == Lower(pieces[i])
      {
        var j :| 0 <= j < |lowered[1..]| && lowered[1..][j] == w;
        assert w == Lower(pieces[j + 1]);
      }
      forall i | 1 <= i < |pieces|
        ensures Lower(pieces[i]) in flatSet
      {
        assert lowered[1..][i - 1] == Lower(pieces[i]);
      }
    }
  }

  /** The flattened string of any tree starts with a space, so its first piece is empty. */
  lemma WordSetRootEmpty(n: Node)
    requires Plain(n)
    ensures WordSet(n).0 == ""
  {
    var ws := Preorder(n);
    assert ws == [ws[0]] + ws[1..];
    SpacedWordsConcat([ws[0]], ws[1..]);
    assert SpacedWords([ws[0]]) == " " + ws[0];
    var flat := SpacedWords(ws);
    assert flat[0] == ' ';
    assert SplitOn(flat, ' ')[0] == "";
  }

  /**
   * The two quirks of `extractWordSet`: the flattened string starts with a space, so the
   * "root word" it returns is the empty string, and the set holds every lowered label,
   * the root's included.
   */
  lemma WordSetQuirks(n: Node)
    requires Plain(n) && NoSpaceLabels(Preorder(n))
    ensures WordSet(n).0 == ""
    ensures WordSet(n).1 == set w | w in Preorder(n) :: Lower(w)
    ensures Lower(n.word) in WordSet(n).1
  {
    var ws := Preorder(n);
    SpacedSplit(ws);
    var parts := [""] + ws;
    var lhs := set i | 1 <= i < |parts| :: Lower(parts[i]);
    var rhs := set w | w in ws :: Lower(w);
    forall j | 0 <= j < |ws|
      ensures Lower(ws[j]) in lhs
    {
      assert parts[j + 1] == ws[j];
    }
    forall x | x in rhs
      ensures x in lhs
    {
      var w :| w in ws && x == Lower(w);
      var j :| 0 <= j < |ws| && ws[j] == w;
    }
    assert lhs == rhs;
    assert ws[0] == n.word;
  }

  /** A node at distance `d` below `n` has a label whose whitespace-separated words include `w`. */
  ghost predicate OccursAt(n: Node, w: string, d: nat)
    decreases n
  {
    if d == 0 then w in Fields(n.word)
    else exists i :: 0 <= i < |n.follow| && n.follow[i].Sub? && OccursAt(n.follow[i].node, w, d - 1)
  }

  /**
   * The depths `getDepthFromWordHelper` appends for the subtree `n` found at `depth`: its
   * own depth when its label contains `w` (and nothing below it), otherwise those of its
   * subtrees, in order.
   */
  function TopMatches(n: Node, w: string, depth: nat): seq<nat>
    requires Plain(n)
    decreases n, 1
  {
    if w in Fields(n.word) then [depth] else MatchesUpTo(n, |n.follow|, w, depth)
  }

  /** The depths appended for the subtrees `n.follow[..k]` of a node at `depth`. */
  function MatchesUpTo(n: Node, k: nat, w: string, depth: nat): seq<nat>
    requires Plain(n) && k <= |n.follow|
    decreases n, 0, k
  {
    if k == 0 then []
    else
      assert n.follow[k - 1] in n.follow;
      MatchesUpTo(n, k - 1, w, depth) + TopMatches(n.follow[k - 1].node, w, depth + 1)
  }

  /** Python's `min` over a non-empty list. */
  function SeqMin(s: seq<nat>): (m: nat)
    requires |s| > 0
    ensures m in s && forall x :: x in s ==> m <= x
  {
    if |s| == 1 then s[0]
    else
      var rest := SeqMin(s[..|s| - 1]);
      assert forall x :: x in s ==> x in s[..|s| - 1] || x == s[|s| - 1];
      if s[|s| - 1] < rest then s[|s| - 1] else rest
  }

  /** `getDepthFromWord`: the least depth appended by the walk, `None` when nothing was. */
  function DepthOf(tree: Option<Node>, w: string): Option<nat>
    requires tree.Some? ==> Plain(tree.value)
  {
    if tree.None? then None
    else
      var found := TopMatches(tree.value, w, 0);
      if |found| == 0 then None else Some(SeqMin(found))
  }

  /** The list `getDepthFromWordHelper` appends to. */
  class DepthList {
    var items: seq<nat>

    constructor ()
      ensures items == []
    {
      items := [];
    }

    method Append(d: nat)
      modifies this
      ensures items == old(items) + [d]
    {
      items := items + [d];
    }
  }

  /**
   * `getDepthFromWordHelper` on an existing subtree: a matching node appends its depth and
   * stops; otherwise every subtree is searched. (The source's helper returns `None` on
   * every path, so its test on the value returned by a subtree never fires.)
   */
  method SearchNode(n: Node, w: string, results: DepthList, depth: nat)
    requires Plain(n)
    modifies results
    ensures results.items == old(results.items) + TopMatches(n, w, depth)
    decreases n
  {
    if w in Fields(n.word) {
      results.Append(depth);
      return;
    }
    var i := 0;
    while i < |n.follow|
      invariant 0 <= i <= |n.follow|
      invariant results.items == old(results.items) + MatchesUpTo(n, i, w, depth)
    {
      assert n.follow[i] in n.follow;
      SearchNode(n.follow[i].node, w, results, depth + 1);
      i := i + 1;
    }
  }

  /** `getDepthFromWordHelper`: a missing tree appends nothing. */
  method GetDepthFromWordHelper(tree: Option<Node>, w: string, results: DepthList, depth: nat)
    requires tree.Some? ==> Plain(tree.value)
    modifies results
    ensures results.items == old(results.items) + (if tree.None? then [] else TopMatches(tree.value, w, depth))
  {
    if tree.None? {
      return;
    }
    SearchNode(tree.value, w, results, depth);
  }

  /** `getDepthFromWord`: the root is depth 0; `None` when the word is nowhere. */
  method GetDepthFromWord(tree: Option<Node>, w: string) returns (r: Option<nat>)
    requires tree.Some? ==> Plain(tree.value)
    ensures r == DepthOf(tree, w)
  {
    var resultDepths := new DepthList();
    GetDepthFromWordHelper(tree, w, resultDepths, 0);
    assert resultDepths.items == (if tree.None? then [] else TopMatches(tree.value, w, 0));
    if |resultDepths.items| == 0 {
      return None;
    }
    return Some(SeqMin(resultDepths.items));
  }

  /** Every depth the walk appends belongs to a node whose label contains the word. */
  lemma {:induction false} MatchesSound(n: Node, w: string, depth: nat)
    requires Plain(n)
    ensures forall e :: e in TopMatches(n, w, depth) ==> e >= depth && OccursAt(n, w, e - depth)
    decreases n, 1
  {
    if w !in Fields(n.word) {
      MatchesUpToSound(n, |n.follow|, w, depth);
    }
  }

  lemma {:induction false} MatchesUpToSound(n: Node, k: nat, w: string, depth: nat)
    requires Plain(n) && k <= |n.follow|
    ensures forall e :: e in MatchesUpTo(n, k, w, depth) ==> e > depth && OccursAt(n, w, e - depth)
    decreases n, 0, k
  {
    if k > 0 {
      assert n.follow[k - 1] in n.follow;
      var child := n.follow[k - 1].node;
      MatchesUpToSound(n, k - 1, w, depth);
      MatchesSound(child, w, depth + 1);
      var tm := TopMatches(child, w, depth + 1);
      forall e | e in tm
        ensures e > depth && OccursAt(n, w, e - depth)
      {
        assert OccursAt(child, w, e - depth - 1);
        assert n.follow[k - 1].Sub? && OccursAt(n.follow[k - 1].node, w, (e - depth) - 1);
      }
    }
  }

  /** The walk over `n.follow[..k]` contains everything the walk over an earlier subtree appends. */
  lemma {:induction false} MatchesUpToContains(n: Node, k: nat, i: nat, w: string, depth: nat)
    requires Plain(n) && i < k <= |n.follow|
    ensures n.follow[i] in n.follow
    ensures forall e :: e in TopMatches(n.follow[i].node, w, depth + 1) ==> e in MatchesUpTo(n, k, w, depth)
    decreases k
  {
    assert n.follow[i] in n.follow;
    if i < k - 1 {
      MatchesUpToContains(n, k - 1, i, w, depth);
    }
  }

  /** Every node whose label contains the word is matched by the walk at that node or above it. */
  lemma {:induction false} MatchesComplete(n: Node, w: string, depth: nat, d: nat)
    requires Plain(n) && OccursAt(n, w, d)
    ensures exists e :: e in TopMatches(n, w, depth) && e <= depth + d
    decreases n
  {
    if w in Fields(n.word) {
      assert depth in TopMatches(n, w, depth);
    } else {
      var i :| 0 <= i < |n.follow| && n.follow[i].Sub? && OccursAt(n.follow[i].node, w, d - 1);
      assert n.follow[i] in n.follow;
      MatchesComplete(n.follow[i].node, w, depth + 1, d - 1);
      var e :| e in TopMatches(n.follow[i].node, w, depth + 1) && e <= depth + 1 + (d - 1);
      MatchesUpToContains(n, |n.follow|, i, w, depth);
      assert e in TopMatches(n, w, depth);
    }
  }

  /**
   * `getDepthFromWord` returns the least depth of a node whose label, split on
   * whitespace, contains the word, and `None` exactly when there is no such node.
   */
  lemma DepthOfIsLeast(n: Node, w: string)
    requires Plain(n)
    ensures DepthOf(Some(n), w) == None <==> forall d: nat :: !OccursAt(n, w, d)
    ensures DepthOf(Some(n), w).Some? ==>
      && OccursAt(n, w, DepthOf(Some(n), w).value)
      && forall d: nat :: d < DepthOf(Some(n), w).value ==> !OccursAt(n, w, d)
  {
    var r := DepthOf(Some(n), w);
    forall d: nat | OccursAt(n, w, d)
      ensures r.Some? && r.value <= d
    {
      FoundNoDeeper(n, w, d);
    }
    if r.Some? {
      MatchesSound(n, w, 0);
      assert r.value in TopMatches(n, w, 0);
      assert OccursAt(n, w, r.value - 0);
    }
  }

  /** A node containing the word at distance `d` makes the walk find the word at depth `d` or less. */
  lemma FoundNoDeeper(n: Node, w: string, d: nat)
    requires Plain(n) && OccursAt(n, w, d)
    ensures DepthOf(Some(n), w).Some? && DepthOf(Some(n), w).value <= d
  {
    MatchesComplete(n, w, 0, d);
    var found := TopMatches(n, w, 0);
    var e :| e in found && e <= d;
    assert SeqMin(found) <= e;
  }

  /** A tree within a budget of `depth` levels has its matches above depth `depth`. */
  lemma {:induction false} OccursWithinBudget(n: Node, w: string, d: nat, depth: int, branch: int)
    requires Bounded(n, depth, branch) && OccursAt(n, w, d)
    ensures d < depth
    decreases n
  {
    if d > 0 {
      var i :| 0 <= i < |n.follow| && n.follow[i].Sub? && OccursAt(n.follow[i].node, w, d - 1);
      assert n.follow[i] in n.follow;
      OccursWithinBudget(n.follow[i].node, w, d - 1, depth - 1, WORD_TREE_BREADTH);
    }
  }

  /** `a ** e` on integers. */
  function Power(a: int, e: nat): (r: int)
    ensures a >= 1 ==> r >= 1
  {
    if e == 0 then 1 else a * Power(a, e - 1)
  }

  /** `numSibPops` of `extractWordSeqs`: the number of parent groups in a full default tree. */
  const SIB_POPS: nat := Power(WORD_TREE_BREADTH, WORD_TREE_DEPTH - 2) as nat

  /** Words one group consumes: its siblings and their parent. */
  const GROUP_WIDTH: nat := WORD_TREE_BREADTH as nat + 1

  /** One `OrderedDict` of `extractWordSeqs`: a parent word and its siblings, as popped. */
  datatype Group = Group(parent: string, sibs: seq<string>)

  /**
   * The `g`-th group taken from the back of the queue `q`: the siblings are popped last
   * word first, then their parent.
   */
  function Chunk(q: seq<string>, g: nat): Group
    requires GROUP_WIDTH * (g + 1) <= |q|
  {
    var t := |q| - GROUP_WIDTH * g;
    Group(q[t - GROUP_WIDTH], seq(GROUP_WIDTH - 1, m requires 0 <= m < GROUP_WIDTH - 1 => q[t - 1 - m]))
  }

  /** The first `g` groups popped from the back of `q`. */
  function Groups(q: seq<string>, g: nat): (r: seq<Group>)
    requires GROUP_WIDTH * g <= |q|
    ensures |r| == g
  {
    if g == 0 then [] else Groups(q, g - 1) + [Chunk(q, g - 1)]
  }

  /**
   * `extractWordSeqs` on the whitespace-split words `q`: the root word `q[0]` and
   * `SIB_POPS` groups popped from the back; an empty queue cannot be indexed and a
   * queue shorter than the pops runs dry.
   */
  function WordSeqs(q: seq<string>): Result<(string, seq<Group>), EvalError>
  {
    if |q| == 0 then Failure(IndexOutOfRange)
    else if |q| < GROUP_WIDTH * SIB_POPS then Failure(PopFromEmpty)
    else Success((q[0], Groups(q, SIB_POPS)))
  }

  /** `extractWordSeqs` fails exactly when the tree has fewer words than the pops need. */
  lemma WordSeqsFails(q: seq<string>)
    ensures WordSeqs(q).Failure? <==> |q| < 30
    ensures WordSeqs(q).Success? ==> |WordSeqs(q).value.1| == 5
  {
    assert Power(WORD_TREE_BREADTH, 1) == 5 * Power(WORD_TREE_BREADTH, 0) == 5;
  }

  /** `extractWordSeqs`: the deque pops of the source, over the whitespace-split flattened tree. */
  method ExtractWordSeqs(n: Node) returns (r: Result<(string, seq<Group>), EvalError>)
    requires Plain(n)
    ensures r == WordSeqs(Fields(SpacedWords(Preorder(n))))
  {
    var flat := ExtractWordSeqsHelper(n);
    ghost var q := Fields(flat);
    var flatQueue := Fields(flat);
    if |flatQueue| == 0 {
      return Failure(IndexOutOfRange);
    }
    var root := flatQueue[0];
    var groups: seq<Group> := [];
    var g := 0;
    while g < SIB_POPS
      invariant 0 <= g <= SIB_POPS
      invariant GROUP_WIDTH * g <= |q|
      invariant flatQueue == q[..|q| - GROUP_WIDTH * g]
      invariant groups == Groups(q, g)
    {
      var t := |flatQueue|;
      var sibs: seq<string> := [];
      var j := 0;
      while j < WORD_TREE_BREADTH
        invariant 0 <= j <= WORD_TREE_BREADTH && j <= t
        invariant flatQueue == q[..t - j]
        invariant sibs == seq(j, m requires 0 <= m < j => q[t - 1 - m])
      {
        if |flatQueue| == 0 {
          assert |q| < GROUP_WIDTH * SIB_POPS;
          return Failure(PopFromEmpty);
        }
        sibs := sibs + [flatQueue[|flatQueue| - 1]];
        flatQueue := flatQueue[..|flatQueue| - 1];
        j := j + 1;
      }
      if |flatQueue| == 0 {
        assert |q| < GROUP_WIDTH * SIB_POPS;
        return Failure(PopFromEmpty);
      }
      var parent := flatQueue[|flatQueue| - 1];
      flatQueue := flatQueue[..|flatQueue| - 1];
      assert Group(parent, sibs) == Chunk(q, g);
      groups := groups + [Group(parent, sibs)];
      g := g + 1;
    }
    return Success((root, groups));
  }

  /** The `i`-th subtree of a plain node. */
  ghost function Kid(n: Node, i: nat): (c: Node)
    requires Plain(n) && i < |n.follow|
    ensures Plain(c)
  {
    assert n.follow[i] in n.follow;
    n.follow[i].node
  }

  /** A node with `k` childless subtrees whose labels are whitespace-free words. */
  ghost predicate LeafParent(c: Node, k: nat)
  {
    Plain(c) && IsWord(c.word) && |c.follow| == k &&
    forall j :: 0 <= j < k ==> Kid(c, j).follow == [] && IsWord(Kid(c, j).word)
  }

  /**
   * A full tree of the default shape: the root, `WORD_TREE_BREADTH` children, and
   * `WORD_TREE_BREADTH` childless grandchildren under each child, every label a
   * whitespace-free word.
   */
  ghost predicate FullDefault(n: Node)
  {
    Plain(n) && IsWord(n.word) && |n.follow| == WORD_TREE_BREADTH &&
    forall i :: 0 <= i < WORD_TREE_BREADTH ==> LeafParent(Kid(n, i), WORD_TREE_BREADTH as nat)
  }

  /**
   * The groups the docstring of `extractWordSeqs` promises for a full default tree: the
   * level-1 nodes from the last to the first, each with its children from the last to
   * the first.
   */
  ghost function DepthFirstGroups(n: Node): (r: seq<Group>)
    requires FullDefault(n)
  {
    seq(5, g requires 0 <= g < 5 =>
      Group(Kid(n, 4 - g).word, seq(5, m requires 0 <= m < 5 => Kid(Kid(n, 4 - g), 4 - m).word)))
  }

  /** The labels of childless subtrees are listed one each. */
  lemma {:induction false} PreorderOfLeaves(c: Node, k: nat)
    requires LeafParent(c, |c.follow|) && k <= |c.follow|
    ensures PreorderUpTo(c, k) == seq(k, j requires 0 <= j < k => Kid(c, j).word)
  {
    if k > 0 {
      PreorderOfLeaves(c, k - 1);
      var l := Kid(c, k - 1);
      assert Preorder(l) == [l.word] + PreorderUpTo(l, 0);
    }
  }

  /** Word `j` of family `i`: the `i`-th child for `j == 0`, else grandchild `j - 1` under it. */
  ghost function FamilyWord(n: Node, i: nat, j: nat): string
    requires FullDefault(n) && i < 5 && j < 6
  {
    if j == 0 then Kid(n, i).word else Kid(Kid(n, i), j - 1).word
  }

  /** The first `k` families of a full default tree, six words each, in depth-first order. */
  lemma {:induction false} PreorderOfFamilies(n: Node, k: nat)
    requires FullDefault(n) && k <= 5
    ensures |PreorderUpTo(n, k)| == 6 * k
    ensures forall i, j :: 0 <= i < k && 0 <= j < 6 ==> PreorderUpTo(n, k)[6 * i + j] == FamilyWord(n, i, j)
  {
    if k > 0 {
      PreorderOfFamilies(n, k - 1);
      var c := Kid(n, k - 1);
      PreorderOfLeaves(c, 5);
      assert Preorder(c) == [c.word] + PreorderUpTo(c, 5);
      var front := PreorderUpTo(n, k - 1);
      assert PreorderUpTo(n, k) == front + Preorder(c);
      forall i, j | 0 <= i < k && 0 <= j < 6
        ensures PreorderUpTo(n, k)[6 * i + j] == FamilyWord(n, i, j)
      {
        if i < k - 1 {
          assert PreorderUpTo(n, k)[6 * i + j] == front[6 * i + j];
        } else {
          assert PreorderUpTo(n, k)[6 * i + j] == Preorder(c)[j];
        }
      }
    }
  }

  /** Whitespace-separated words split back into themselves. */
  lemma {:induction false} FieldsOfSpaced(ws: seq<string>)
    requires forall k :: 0 <= k < |ws| ==> IsWord(ws[k])
    ensures Fields(SpacedWords(ws)) == ws
  {
    if ws != [] {
      SpacedWordsConcat([ws[0]], ws[1..]);
      assert [ws[0]] + ws[1..] == ws;
      assert SpacedWords([ws[0]]) == " " + ws[0];
      var rest := SpacedWords(ws[1..]);
      SpacedHead(ws[1..]);
      FieldsOfSpaced(ws[1..]);
      FieldsWordThen(ws[0], rest);
      var s := " " + ws[0] + rest;
      assert s[1..] == ws[0] + rest;
      assert SpacedWords(ws) == s;
    }
  }

  /** A non-empty spaced string starts with a space. */
  lemma {:induction false} SpacedHead(ws: seq<string>)
    ensures SpacedWords(ws) == [] || SpacedWords(ws)[0] == ' '
  {
    if ws != [] {
      SpacedWordsConcat([ws[0]], ws[1..]);
      assert [ws[0]] + ws[1..] == ws;
      assert SpacedWords([ws[0]]) == " " + ws[0];
    }
  }

  /**
   * On a full default tree `extractWordSeqs` yields the root word and the depth-first
   * groups of its docstring: the last level-1 node with its children last first, down
   * to the first level-1 node.
   */
  lemma FullTreeWordSeqs(n: Node)
    requires FullDefault(n)
    ensures WordSeqs(Fields(SpacedWords(Preorder(n)))) == Success((n.word, DepthFirstGroups(n)))
  {
    PreorderOfFamilies(n, 5);
    var q := Preorder(n);
    assert q == [n.word] + PreorderUpTo(n, 5);
    assert |q| == 31;
    forall k | 0 <= k < 31 ensures IsWord(q[k]) {
      if k > 0 {
        assert q[k] == FamilyWord(n, (k - 1) / 6, (k - 1) % 6);
      }
    }
    FieldsOfSpaced(q);
    assert Power(WORD_TREE_BREADTH, 1) == 5 * Power(WORD_TREE_BREADTH, 0) == 5;
    assert SIB_POPS == 5 && GROUP_WIDTH == 6;
    GroupsOfFull(n, q, 5);
    assert DepthFirstGroups(n)[..5] == DepthFirstGroups(n);
  }

  /** The first `g` groups popped from a full default tree's words are the first `g` depth-first groups. */
  lemma {:induction false} GroupsOfFull(n: Node, q: seq<string>, g: nat)
    requires FullDefault(n) && g <= 5
    requires q == [n.word] + PreorderUpTo(n, 5) && |q| == 31
    requires forall i, j :: 0 <= i < 5 && 0 <= j < 6 ==> PreorderUpTo(n, 5)[6 * i + j] == FamilyWord(n, i, j)
    ensures Groups(q, g) == DepthFirstGroups(n)[..g]
  {
    if g > 0 {
      GroupsOfFull(n, q, g - 1);
      var h := g - 1;
      var c := Chunk(q, h);
      var want := DepthFirstGroups(n)[h];
      assert c.parent == q[25 - 6 * h] == FamilyWord(n, 4 - h, 0);
      forall m | 0 <= m < 5 ensures c.sibs[m] == want.sibs[m] {
        assert c.sibs[m] == q[1 + 6 * (4 - h) + (5 - m)] == FamilyWord(n, 4 - h, 5 - m);
      }
      assert c == want;
      assert DepthFirstGroups(n)[..g] == DepthFirstGroups(n)[..h] + [want];
    }
  }

  /**
   * The pops group by position, not by parent: on a 30-word tree whose root has 29
   * childless children, `extractWordSeqs` succeeds and its first group's parent is the
   * childless 24th child.
   */
  lemma FlatTreeWordSeqs(n: Node)
    requires LeafParent(n, 29)
    ensures WordSeqs(Fields(SpacedWords(Preorder(n)))).Success?
    ensures WordSeqs(Fields(SpacedWords(Preorder(n)))).value.1[0].parent == Kid(n, 23).word
    ensures Kid(n, 23).follow == []
  {
    PreorderOfLeaves(n, 29);
    var q := Preorder(n);
    assert q == [n.word] + PreorderUpTo(n, 29);
    forall k | 0 <= k < |q| ensures IsWord(q[k]) {
      if k > 0 {
        assert q[k] == Kid(n, k - 1).word;
      }
    }
    FieldsOfSpaced(q);
    assert Power(WORD_TREE_BREADTH, 1) == 5 * Power(WORD_TREE_BREADTH, 0) == 5;
    assert SIB_POPS == 5 && GROUP_WIDTH == 6;
    GroupsHead(q, 5);
    assert q[24] == Kid(n, 23).word;
  }

  /** The first group popped is the chunk at the back of the queue. */
  lemma {:induction false} GroupsHead(q: seq<string>, g: nat)
    requires 1 <= g && GROUP_WIDTH * g <= |q|
    ensures Groups(q, g)[0] == Chunk(q, 0)
  {
    if g > 1 {
      GroupsHead(q, g - 1);
    }
  }
}
