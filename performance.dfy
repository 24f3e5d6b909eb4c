/**
 * The measurements of one sentence replayed against echo trees: counters, the depth
 * histogram and the scores derived from them. Scores are exact reals.
 */
module Performance {
  import opened Wrappers
  import opened EchoTree

  /** The Python exceptions the evaluator lets escape. */
  datatype EvalError =
    | DivisionByZero            // a score of a one-word sentence
    | EmptyReduce               // `reduce` over an empty string
    | IndexOutOfRange           // the first token of an empty sentence
    | PopFromEmpty              // a `deque.pop` on an exhausted queue
    | LookupFailed(cause: LookupError)

  /** `getDepthCount`: the number of words found at `depth`; 0 for a depth never seen. */
  function DepthCount(depths: map<int, nat>, depth: int): nat
  {
    if depth in depths then depths[depth] else 0
  }

  /** `addWordDepth`: the histogram with one more word found at `depth`. */
  function Recorded(depths: map<int, nat>, depth: int): map<int, nat>
  {
    depths[depth := DepthCount(depths, depth) + 1]
  }

  /** Recording a depth raises the count of that depth by one and no other count. */
  lemma RecordedCount(depths: map<int, nat>, depth: int, other: int)
    ensures DepthCount(Recorded(depths, depth), other)
      == DepthCount(depths, other) + (if other == depth then 1 else 0)
    ensures Recorded(depths, depth).Keys == depths.Keys + {depth}
  {
  }

  /** `0.5 ** n`. */
  function Half(n: nat): (r: real)
    ensures 0.0 < r <= 1.0
  {
    if n == 0 then 1.0 else Half(n - 1) / 2.0
  }

  /** Sum over depths 1..k of `0.5 ** (d - 1) * count(d)`. */
  function WeightedSum(depths: map<int, nat>, k: nat): real
  {
    if k == 0 then 0.0 else WeightedSum(depths, k - 1) + Half(k - 1) * DepthCount(depths, k) as real
  }

  /** Sum over depths 1..k of `count(d)`: the words found at those depths. */
  function HitsUpTo(depths: map<int, nat>, k: nat): nat
  {
    if k == 0 then 0 else HitsUpTo(depths, k - 1) + DepthCount(depths, k)
  }

  /**
   * `getDepthWeightedSuccessSentence`: depth 1 earns a point per word, depth 2 half a
   * point, and so on up to `WORD_TREE_DEPTH - 1`, divided by `sentenceLen - 1`; a
   * one-word sentence divides by zero.
   */
  function DepthWeighted(depths: map<int, nat>, sentenceLen: int): Result<real, EvalError>
  {
    if sentenceLen - 1 == 0 then Failure(DivisionByZero)
    else Success(WeightedSum(depths, WORD_TREE_DEPTH - 1) / (sentenceLen - 1) as real)
  }

  /** `getNetSuccess`: the percentage of words not lost, out of `sentenceLen - 1`. */
  function NetSuccess(netFailure: int, sentenceLen: int): Result<real, EvalError>
  {
    if sentenceLen - 1 == 0 then Failure(DivisionByZero)
    else Success(100.0 - netFailure as real * 100.0 / (sentenceLen - 1) as real)
  }

  /** Every non-empty finite set of integers has a largest element. */
  lemma {:induction false} MaxExists(s: set<int>)
    requires s != {}
    ensures exists m :: m in s && forall k :: k in s ==> k <= m
    decreases s
  {
    if forall y :: y !in s {
      assert false;
    }
    var x :| x in s;
    var above := set k | k in s && k > x;
    if y :| y in s && y > x {
      assert y in above;
      assert above < s by {
        assert x !in above;
      }
      MaxExists(above);
      var m :| m in above && forall k :: k in above ==> k <= m;
      assert forall k :: k in s ==> k <= m by {
        forall k | k in s
          ensures k <= m
        {
          if k > x {
            assert k in above;
          }
        }
      }
    }
  }

  /** `max(depths.keys())`, or 0 when the histogram is empty (the caught `ValueError`). */
  function DeepestDepth(depths: map<int, nat>): (r: int)
    ensures depths == map[] ==> r == 0
    ensures depths != map[] ==> r in depths && forall d :: d in depths ==> d <= r
  {
    if depths == map[] then 0
    else
      MaxExists(depths.Keys);
      var m :| m in depths && forall d :: d in depths ==> d <= m;
      m
  }

  /** Words found at depths outside 1..`WORD_TREE_DEPTH - 1` (depth 0 included) do not change the score. */
  lemma IgnoredDepths(depths: map<int, nat>, sentenceLen: int, depth: int, count: nat)
    requires depth < 1 || depth >= WORD_TREE_DEPTH
    ensures DepthWeighted(depths[depth := count], sentenceLen) == DepthWeighted(depths, sentenceLen)
  {
    WeightedSumFrame(depths, depths[depth := count], WORD_TREE_DEPTH - 1);
  }

  lemma {:induction false} WeightedSumFrame(a: map<int, nat>, b: map<int, nat>, k: nat)
    requires forall d :: 1 <= d <= k ==> DepthCount(a, d) == DepthCount(b, d)
    ensures WeightedSum(a, k) == WeightedSum(b, k)
  {
    if k > 0 {
      WeightedSumFrame(a, b, k - 1);
    }
  }

  /** The weighted sum lies between 0 and the number of words found at depths 1..k. */
  lemma {:induction false} WeightedSumBounds(depths: map<int, nat>, k: nat)
    ensures 0.0 <= WeightedSum(depths, k) <= HitsUpTo(depths, k) as real
  {
    if k > 0 {
      WeightedSumBounds(depths, k - 1);
      var h, c := Half(k - 1), DepthCount(depths, k) as real;
      assert c - h * c == (1.0 - h) * c;
    }
  }

  /**
   * When at most `sentenceLen - 1` words were found at the scored depths (as every
   * replay guarantees), the depth-weighted score lies in [0, 1].
   */
  lemma ScoreInUnitInterval(depths: map<int, nat>, sentenceLen: int)
    requires sentenceLen >= 2 && HitsUpTo(depths, WORD_TREE_DEPTH - 1) <= sentenceLen - 1
    ensures DepthWeighted(depths, sentenceLen).Success?
    ensures 0.0 <= DepthWeighted(depths, sentenceLen).value <= 1.0
  {
    WeightedSumBounds(depths, WORD_TREE_DEPTH - 1);
    var s := WeightedSum(depths, WORD_TREE_DEPTH - 1);
    var n := (sentenceLen - 1) as real;
    RatioAtMostOne(s, n);
  }

  /** With the default depth 3 the score is (count(1) + count(2) / 2) / (sentenceLen - 1). */
  lemma ScoreClosedForm(depths: map<int, nat>, sentenceLen: int)
    requires sentenceLen != 1
    ensures DepthWeighted(depths, sentenceLen)
      == Success((DepthCount(depths, 1) as real + DepthCount(depths, 2) as real / 2.0) / (sentenceLen - 1) as real)
  {
    assert Half(1) == 0.5;
    assert WeightedSum(depths, 1) == DepthCount(depths, 1) as real;
    assert WeightedSum(depths, 2) == DepthCount(depths, 1) as real + DepthCount(depths, 2) as real / 2.0;
  }

  /** An illustration of the closed form: four words, one found at depth 1 and one at depth 2, score (1 + 1/2) / 3. */
  lemma ScoreExample()
    ensures DepthWeighted(map[1 := 1, 2 := 1], 4) == Success(0.5)
  {
    ScoreClosedForm(map[1 := 1, 2 := 1], 4);
  }

  /** Net success is a percentage when no more words were lost than could be predicted. */
  lemma NetSuccessBounds(netFailure: int, sentenceLen: int)
    requires sentenceLen >= 2 && 0 <= netFailure <= sentenceLen - 1
    ensures NetSuccess(netFailure, sentenceLen).Success?
    ensures 0.0 <= NetSuccess(netFailure, sentenceLen).value <= 100.0
    ensures netFailure == 0 ==> NetSuccess(netFailure, sentenceLen).value == 100.0
    ensures netFailure == sentenceLen - 1 ==> NetSuccess(netFailure, sentenceLen).value == 0.0
  {
    var n := (sentenceLen - 1) as real;
    var f := netFailure as real;
    RatioAtMostOne(f, n);
    assert f * 100.0 / n == f / n * 100.0;
  }

  /** A ratio of a non-negative amount to a larger positive one lies in [0, 1]; kept apart so the real-division step is proved in a small context. */
  lemma RatioAtMostOne(a: real, b: real)
    requires 0.0 <= a <= b && b > 0.0
    ensures 0.0 <= a / b <= 1.0
  {
    assert a / b * b == a;
  }

  /** One field of a CSV row, before formatting. */
  datatype Cell =
    | Int(n: int)        // `str(n)`
    | Fixed2(x: real)    // `'%.2f' % x`
    | Float(x: real)     // `str(x)`

  /** The per-depth count columns `count(1), ..., count(k)`. */
  function DepthCells(depths: map<int, nat>, k: nat): (r: seq<Cell>)
  {
    if k == 0 then [] else DepthCells(depths, k - 1) + [Int(DepthCount(depths, k))]
  }

  lemma {:induction false} DepthCellsSpec(depths: map<int, nat>, k: nat)
    ensures |DepthCells(depths, k)| == k
    ensures forall d :: 1 <= d <= k ==> DepthCells(depths, k)[d - 1] == Int(DepthCount(depths, d))
  {
    if k > 0 {
      DepthCellsSpec(depths, k - 1);
    }
  }

  /**
   * The measurements of one sentence. The back-reference to the evaluator is left out:
   * the run-wide deepest depth it supplies is passed to `ToCSV`.
   */
  class SentencePerformance {
    var emailID: int
    var sentenceID: int
    var sentenceLen: int
    var failures: nat
    var outOfSeqs: nat
    var depths: map<int, nat>

    constructor (tokenCount: nat, emailID: int, sentenceID: int)
      ensures this.emailID == emailID && this.sentenceID == sentenceID
      ensures sentenceLen == tokenCount && failures == 0 && outOfSeqs == 0 && depths == map[]
    {
      this.emailID := emailID;
      this.sentenceID := sentenceID;
      sentenceLen := tokenCount;
      failures := 0;
      outOfSeqs := 0;
      depths := map[];
    }

    /** `addFailure`: one more word missing from the tree on display. */
    method AddFailure()
      modifies this
      ensures failures == old(failures) + 1
      ensures outOfSeqs == old(outOfSeqs) && depths == old(depths) && sentenceLen == old(sentenceLen)
      ensures emailID == old(emailID) && sentenceID == old(sentenceID)
    {
      failures := failures + 1;
    }

    /** `addOutOfSeq`: one more word missing now but shown in an earlier tree. */
    method AddOutOfSeq()
      modifies this
      ensures outOfSeqs == old(outOfSeqs) + 1
      ensures failures == old(failures) && depths == old(depths) && sentenceLen == old(sentenceLen)
      ensures emailID == old(emailID) && sentenceID == old(sentenceID)
    {
      outOfSeqs := outOfSeqs + 1;
    }

    /** `addWordDepth`: one more word found at `depth`; the `KeyError` starts the count at 1. */
    method AddWordDepth(depth: int)
      modifies this
      ensures depths == Recorded(old(depths), depth)
      ensures failures == old(failures) && outOfSeqs == old(outOfSeqs) && sentenceLen == old(sentenceLen)
      ensures emailID == old(emailID) && sentenceID == old(sentenceID)
    {
      if depth in depths {
        depths := depths[depth := depths[depth] + 1];
      } else {
        depths := depths[depth := 1];
      }
    }

    /** `getNetFailure`. */
    function NetFailure(): int
      reads this
    {
      failures - outOfSeqs
    }

    /**
     * `getDepthWeightedSuccessSentence`: the loop over depths 1..`WORD_TREE_DEPTH - 1`
     * accumulates the weighted counts before dividing.
     */
    method DepthWeightedSuccess() returns (r: Result<real, EvalError>)
      ensures r == DepthWeighted(depths, sentenceLen)
    {
      var res := 0.0;
      var weight := 1.0;
      var depth := 1;
      while depth < WORD_TREE_DEPTH
        invariant 1 <= depth <= WORD_TREE_DEPTH
        invariant weight == Half(depth - 1)
        invariant res == WeightedSum(depths, depth - 1)
      {
        res := res + weight * DepthCount(depths, depth) as real;
        weight := weight / 2.0;
        depth := depth + 1;
      }
      if sentenceLen - 1 == 0 {
        return Failure(DivisionByZero);
      }
      return Success(res / (sentenceLen - 1) as real);
    }

    /**
     * `toCSV`: email ID, sentence ID, length, failures, out-of-sequence count, net
     * failure, net success, one count per depth 1..`maxDepth`, and the weighted score.
     */
    method ToCSV(maxDepth: int) returns (r: Result<seq<Cell>, EvalError>)
      ensures r == Row(this, maxDepth)
    {
      var netSuccess := NetSuccess(NetFailure(), sentenceLen);
      if netSuccess.Failure? {
        return Failure(netSuccess.error);
      }
      var row := [Int(emailID), Int(sentenceID), Int(sentenceLen), Int(failures), Int(outOfSeqs),
                  Int(NetFailure()), Fixed2(netSuccess.value)];
      var depth := 1;
      while depth < maxDepth + 1
        invariant 1 <= depth <= (if maxDepth < 0 then 0 else maxDepth) + 1
        invariant row == Front(this) + [Fixed2(netSuccess.value)] + DepthCells(depths, depth - 1)
        decreases maxDepth + 1 - depth
      {
        row := row + [Int(DepthCount(depths, depth))];
        depth := depth + 1;
      }
      assert row == Front(this) + [Fixed2(netSuccess.value)] + DepthCells(depths, if maxDepth < 0 then 0 else maxDepth);
      var score := DepthWeightedSuccess();
      if score.Failure? {
        return Failure(score.error);
      }
      return Success(row + [Float(score.value)]);
    }
  }

  /** The six integer columns that open a row. */
  function Front(p: SentencePerformance): seq<Cell>
    reads p
  {
    [Int(p.emailID), Int(p.sentenceID), Int(p.sentenceLen), Int(p.failures), Int(p.outOfSeqs), Int(p.NetFailure())]
  }

  /** The CSV row of a sentence when the run's deepest depth is `maxDepth`. */
  function Row(p: SentencePerformance, maxDepth: int): Result<seq<Cell>, EvalError>
    reads p
  {
    var k: nat := if maxDepth < 0 then 0 else maxDepth;
    match NetSuccess(p.NetFailure(), p.sentenceLen)
    case Failure(e) => Failure(e)
    case Success(net) =>
      match DepthWeighted(p.depths, p.sentenceLen)
      case Failure(e) => Failure(e)
      case Success(score) => Success(Front(p) + [Fixed2(net)] + DepthCells(p.depths, k) + [Float(score)])
  }

  /**
   * A row fails exactly for a one-word sentence; otherwise it has `8 + maxDepth` fields:
   * the two IDs, the counters, net success, `count(d)` in column `7 + d` for each depth 1..`maxDepth`,
   * and the weighted score last.
   */
  lemma RowShape(p: SentencePerformance, maxDepth: nat)
    ensures Row(p, maxDepth).Failure? <==> p.sentenceLen == 1
    ensures Row(p, maxDepth).Success? ==>
      var row := Row(p, maxDepth).value;
      && |row| == 8 + maxDepth
      && row[0] == Int(p.emailID) && row[1] == Int(p.sentenceID)
      && row[2] == Int(p.sentenceLen) && row[3] == Int(p.failures) && row[4] == Int(p.outOfSeqs)
      && row[5] == Int(p.failures - p.outOfSeqs)
      && row[6] == Fixed2(NetSuccess(p.NetFailure(), p.sentenceLen).value)
      && (forall d :: 1 <= d <= maxDepth ==> row[6 + d] == Int(DepthCount(p.depths, d)))
      && row[7 + maxDepth] == Float(DepthWeighted(p.depths, p.sentenceLen).value)
  {
    DepthCellsSpec(p.depths, maxDepth);
  }
}
