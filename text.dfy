/** The few Python string operations the core relies on, on `seq<char>`. */
module Text {

  /** `s.split(sep)` with an explicit one-character separator: empty pieces are kept. */
  function SplitOn(s: string, sep: char): (r: seq<string>)
    ensures |r| >= 1
    ensures forall k :: 0 <= k < |r| ==> sep !in r[k]
    decreases |s|
  {
    if |s| == 0 then [""]
    else if s[0] == sep then [""] + SplitOn(s[1..], sep)
    else
      var rest := SplitOn(s[1..], sep);
      [[s[0]] + rest[0]] + rest[1..]
  }

  /** `sep.join(parts)`, built left to right as the string concatenations in the source do. */
  function Join(parts: seq<string>, sep: char): string
    requires |parts| >= 1
    decreases |parts|
  {
    if |parts| == 1 then parts[0]
    else Join(parts[..|parts| - 1], sep) + [sep] + parts[|parts| - 1]
  }

  /** A piece without the separator splits to itself. */
  lemma {:induction false} SplitOnPlain(s: string, sep: char)
    requires sep !in s
    ensures SplitOn(s, sep) == [s]
    decreases |s|
  {
    if |s| > 0 {
      assert sep !in s[1..];
      SplitOnPlain(s[1..], sep);
      assert [s[0]] + s[1..] == s;
    }
  }

  /** Splitting distributes over a separator: `(a + sep + b).split(sep) == a.split(sep) + b.split(sep)`. */
  lemma {:induction false} SplitOnConcat(a: string, b: string, sep: char)
    ensures SplitOn(a + [sep] + b, sep) == SplitOn(a, sep) + SplitOn(b, sep)
    decreases |a|
  {
    if |a| == 0 {
      assert a + [sep] + b == [sep] + b;
      assert ([sep] + b)[1..] == b;
    } else {
      assert (a + [sep] + b)[0] == a[0];
      assert (a + [sep] + b)[1..] == a[1..] + [sep] + b;
      SplitOnConcat(a[1..], b, sep);
    }
  }

  /** Joining and splitting are inverse on pieces that do not contain the separator. */
  lemma {:induction false} SplitJoin(parts: seq<string>, sep: char)
    requires |parts| >= 1
    requires forall k :: 0 <= k < |parts| ==> sep !in parts[k]
    ensures SplitOn(Join(parts, sep), sep) == parts
    decreases |parts|
  {
    var n := |parts|;
    if n == 1 {
      SplitOnPlain(parts[0], sep);
    } else {
      SplitJoin(parts[..n - 1], sep);
      SplitOnConcat(Join(parts[..n - 1], sep), parts[n - 1], sep);
      SplitOnPlain(parts[n - 1], sep);
      assert parts[..n - 1] + [parts[n - 1]] == parts;
    }
  }

  /** Splitting and joining are inverse on every string. */
  lemma {:induction false} JoinSplit(s: string, sep: char)
    ensures Join(SplitOn(s, sep), sep) == s
    decreases |s|
  {
    if |s| > 0 {
      JoinSplit(s[1..], sep);
      var rest := SplitOn(s[1..], sep);
      if s[0] == sep {
        JoinPrepend("", rest, sep);
        assert [sep] + s[1..] == s;
      } else {
        JoinHeadChar(s[0], rest, sep);
        assert [s[0]] + s[1..] == s;
      }
    }
  }

  /** Joining with one more piece in front. */
  lemma {:induction false} JoinPrepend(x: string, parts: seq<string>, sep: char)
    requires |parts| >= 1
    ensures Join([x] + parts, sep) == x + [sep] + Join(parts, sep)
    decreases |parts|
  {
    var n := |parts|;
    if n == 1 {
      assert ([x] + parts)[..1] == [x];
    } else {
      assert ([x] + parts)[..n] == [x] + parts[..n - 1];
      JoinPrepend(x, parts[..n - 1], sep);
    }
  }

  /** Joining with one more piece at the end. */
  lemma JoinAppend(parts: seq<string>, x: string, sep: char)
    requires |parts| >= 1
    ensures Join(parts + [x], sep) == Join(parts, sep) + [sep] + x
  {
    assert (parts + [x])[..|parts|] == parts;
  }

  /** Joining after glueing one character to the front of the first piece. */
  lemma {:induction false} JoinHeadChar(c: char, parts: seq<string>, sep: char)
    requires |parts| >= 1
    ensures Join([[c] + parts[0]] + parts[1..], sep) == [c] + Join(parts, sep)
    decreases |parts|
  {
    var n := |parts|;
    var q := [[c] + parts[0]] + parts[1..];
    if n > 1 {
      assert q[..n - 1] == [[c] + parts[..n - 1][0]] + parts[..n - 1][1..];
      JoinHeadChar(c, parts[..n - 1], sep);
    }
  }

  /** Python 2 `str.lower()` on one byte: only ASCII letters change. */
  function LowerChar(c: char): char
  {
    if 'A' <= c <= 'Z' then (c as int + 32) as char else c
  }

  /** Python 2 `str.lower()` on a byte string. */
  function Lower(s: string): string
  {
    seq(|s|, i requires 0 <= i < |s| => LowerChar(s[i]))
  }

  /** The characters Python's argument-less `str.split()` treats as whitespace on a byte string. */
  predicate IsSpace(c: char)
  {
    c == ' ' || c == '\t' || c == '\n' || c == '\r' || c == '\U{B}' || c == '\U{C}'
  }

  /** Index of the first whitespace character at or after `i`, or `|s|`. */
  function WordEnd(s: string, i: nat): (k: nat)
    requires i <= |s|
    ensures i <= k <= |s|
    ensures forall j :: i <= j < k ==> !IsSpace(s[j])
    ensures k < |s| ==> IsSpace(s[k])
    decreases |s| - i
  {
    if i == |s| || IsSpace(s[i]) then i else WordEnd(s, i + 1)
  }

  /** Python's argument-less `s.split()`: the maximal runs of non-whitespace characters. */
  function Fields(s: string): (r: seq<string>)
    ensures forall k :: 0 <= k < |r| ==> |r[k]| > 0
    decreases |s|
  {
    if |s| == 0 then []
    else if IsSpace(s[0]) then Fields(s[1..])
    else
      var k := WordEnd(s, 0);
      [s[..k]] + Fields(s[k..])
  }

  /** A non-empty word without whitespace has itself as its only field. */
  lemma FieldsOfWord(s: string)
    requires |s| > 0 && forall j :: 0 <= j < |s| ==> !IsSpace(s[j])
    ensures Fields(s) == [s]
  {
    assert WordEnd(s, 0) == |s|;
    assert s[..|s|] == s;
  }

  /** A non-empty string without whitespace: one field of `split()`. */
  predicate IsWord(s: string)
  {
    |s| > 0 && forall j :: 0 <= j < |s| ==> !IsSpace(s[j])
  }

  /** A word followed by nothing or by whitespace is the first field. */
  lemma FieldsWordThen(w: string, rest: string)
    requires IsWord(w)
    requires rest == [] || IsSpace(rest[0])
    ensures Fields(w + rest) == [w] + Fields(rest)
  {
    var s := w + rest;
    assert forall j :: 0 <= j < |w| ==> s[j] == w[j];
    assert |w| < |s| ==> s[|w|] == rest[0];
    assert WordEnd(s, 0) == |w|;
    assert s[..|w|] == w && s[|w|..] == rest;
  }

  /** Decimal digits of a natural number, as `str(n)` prints them. */
  function NatToString(n: nat): (r: string)
    ensures |r| >= 1
    ensures forall k :: 0 <= k < |r| ==> '0' <= r[k] <= '9'
    decreases n
  {
    if n < 10 then [('0' as int + n) as char]
    else NatToString(n / 10) + [('0' as int + n % 10) as char]
  }
}
