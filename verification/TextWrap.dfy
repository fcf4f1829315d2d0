/** Greedy line wrapping of the instruction PDF.  The font is an arbitrary width function on strings. */
module TextWrap {

  type Measure = string -> int

  function Joined(words: seq<string>): string {
    if words == [] then ""
    else if |words| == 1 then words[0]
    else Joined(words[..|words| - 1]) + " " + words[|words| - 1]
  }

  predicate Fits(words: seq<string>, measure: Measure, width: int) { measure(Joined(words)) <= width }

  function Texts(lines: seq<seq<string>>): (r: seq<string>)
    ensures |r| == |lines| && forall k | 0 <= k < |r| :: r[k] == Joined(lines[k])
  {
    seq(|lines|, k requires 0 <= k < |lines| => Joined(lines[k]))
  }

  function Flat(lines: seq<seq<string>>): seq<string> {
    if lines == [] then [] else lines[0] + Flat(lines[1..])
  }

  /** The words in their order, no empty line, and every line of two or more words fits. */
  predicate Wraps(lines: seq<seq<string>>, words: seq<string>, measure: Measure, width: int) {
    Flat(lines) == words &&
    forall k | 0 <= k < |lines| :: |lines[k]| > 0 && (|lines[k]| > 1 ==> Fits(lines[k], measure, width))
  }

  // ---------- greedy ----------

  /** How many words the first line takes when `n` are on it already. */
  function FirstLine(words: seq<string>, measure: Measure, width: int, n: nat): (r: nat)
    requires 0 < n <= |words|
    ensures n <= r <= |words|
    ensures forall k | n < k <= r :: Fits(words[..k], measure, width)
    ensures r < |words| ==> !Fits(words[..r + 1], measure, width)
    decreases |words| - n
  {
    if n < |words| && Fits(words[..n + 1], measure, width) then FirstLine(words, measure, width, n + 1) else n
  }

  function Greedy(words: seq<string>, measure: Measure, width: int): seq<seq<string>>
    decreases |words|
  {
    if words == [] then []
    else
      var n := FirstLine(words, measure, width, 1);
      [words[..n]] + Greedy(words[n..], measure, width)
  }

  lemma {:induction false} GreedyWraps(words: seq<string>, measure: Measure, width: int)
    ensures Wraps(Greedy(words, measure, width), words, measure, width)
    decreases |words|
  {
    if words == [] {
    } else {
      var n := FirstLine(words, measure, width, 1);
      GreedyWraps(words[n..], measure, width);
      assert words == words[..n] + words[n..];
    }
  }

  // ---------- no split has fewer lines ----------

  /** A contiguous part of a line is never wider than the line. */
  ghost predicate PartsNarrower(words: seq<string>, measure: Measure) {
    forall i, a, b, j | 0 <= i <= a < b <= j <= |words| :: measure(Joined(words[a..b])) <= measure(Joined(words[i..j]))
  }

  lemma PartsOfTail(words: seq<string>, measure: Measure, m: nat)
    requires m <= |words| && PartsNarrower(words, measure)
    ensures PartsNarrower(words[m..], measure)
  {
    var tail := words[m..];
    forall i, a, b, j | 0 <= i <= a < b <= j <= |tail|
      ensures measure(Joined(tail[a..b])) <= measure(Joined(tail[i..j]))
    {
      assert tail[a..b] == words[m + a..m + b] && tail[i..j] == words[m + i..m + j];
    }
  }

  /** A line that fits still fits without some of its first or last words. */
  lemma PartFits(words: seq<string>, measure: Measure, width: int, a: nat, b: nat, j: nat)
    requires a < b <= j <= |words| && PartsNarrower(words, measure) && Fits(words[..j], measure, width)
    ensures Fits(words[a..b], measure, width) && (a == 0 ==> Fits(words[..b], measure, width))
  {
    assert words[..j] == words[0..j] && words[..b] == words[0..b];
  }

  lemma FirstOf(lines: seq<seq<string>>, words: seq<string>, measure: Measure, width: int)
    requires Wraps(lines, words, measure, width) && words != []
    ensures lines != [] && 0 < |lines[0]| <= |words| && lines[0] == words[..|lines[0]|]
    ensures Wraps(lines[1..], words[|lines[0]|..], measure, width)
  {
    assert words == lines[0] + Flat(lines[1..]);
  }

  /** Dropping the first `k` words never takes more lines. */
  lemma {:induction false} Trim(lines: seq<seq<string>>, words: seq<string>, measure: Measure, width: int, k: nat)
    returns (rest: seq<seq<string>>)
    requires Wraps(lines, words, measure, width) && PartsNarrower(words, measure) && k <= |words|
    ensures Wraps(rest, words[k..], measure, width) && |rest| <= |lines|
  {
    if k == 0 {
      assert words[0..] == words;
      rest := lines;
    } else {
      FirstOf(lines, words, measure, width);
      var m := |lines[0]|;
      if k < m {
        var cut := words[k..m];
        assert cut == words[..m][k..m];
        rest := [cut] + lines[1..];
        if |cut| > 1 {
          PartFits(words, measure, width, k, m, m);
        }
        assert words[k..] == cut + words[m..];
        assert rest[1..] == lines[1..];
      } else {
        PartsOfTail(words, measure, m);
        rest := Trim(lines[1..], words[m..], measure, width, k - m);
        assert words[m..][k - m..] == words[k..];
      }
    }
  }

  /** Greedy is optimal: no other wrapping uses fewer lines. */
  lemma {:induction false} GreedyIsOptimal(words: seq<string>, measure: Measure, width: int, lines: seq<seq<string>>)
    requires PartsNarrower(words, measure) && Wraps(lines, words, measure, width)
    ensures |Greedy(words, measure, width)| <= |lines|
    decreases |words|
  {
    if words == [] {
    } else {
      FirstOf(lines, words, measure, width);
      var n, m := FirstLine(words, measure, width, 1), |lines[0]|;
      if n < m {
        PartFits(words, measure, width, 0, n + 1, m);
        assert false;
      }
      PartsOfTail(words, measure, m);
      PartsOfTail(words, measure, n);
      var rest := Trim(lines[1..], words[m..], measure, width, n - m);
      assert words[m..][n - m..] == words[n..];
      GreedyIsOptimal(words[n..], measure, width, rest);
    }
  }

  /** The assumption is needed: where a longer line is narrower, greedy stops too early. */
  lemma KerningDefeatsGreedy()
    ensures var measure := (s: string) => if s == "a b" then 2 else 1;
            var words := ["a", "b", "c"];
            Wraps([words], words, measure, 1) && |Greedy(words, measure, 1)| > 1
  {
    var measure := (s: string) => if s == "a b" then 2 else 1;
    var words := ["a", "b", "c"];
    assert Flat([words]) == words + Flat([]);
    assert words[..2] == ["a", "b"];
    assert Joined(["a", "b"]) == Joined(["a", "b"][..1]) + " " + "b";
    assert ["a", "b"][..1] == ["a"];
    assert Joined(["a", "b"]) == "a b";
    assert words[..3] == words && words[..3][..2] == ["a", "b"];
    assert |Joined(words)| == 5;
    assert FirstLine(words, measure, 1, 1) == 1;
    GreedyWraps(words[1..], measure, 1);
  }

  // ---------- the loop ----------

  /** Between two words: the finished lines, and the line under way from word `from` to word `n`. */
  ghost predicate UnderWay(words: seq<string>, measure: Measure, width: int, done: seq<seq<string>>, from: nat,
                           n: nat) {
    from < n <= |words| && done + Greedy(words[from..], measure, width) == Greedy(words, measure, width) &&
    n - from <= FirstLine(words[from..], measure, width, 1)
  }

  /** The texts of the finished lines, and of the line under way. */
  predicate Written(words: seq<string>, done: seq<seq<string>>, from: nat, n: nat, lines: seq<string>, current: string)
    requires from < n <= |words|
  {
    lines == Texts(done) && current == Joined(words[from..n])
  }

  lemma {:induction false} Stretch(words: seq<string>, measure: Measure, width: int, done: seq<seq<string>>,
                                   from: nat, n: nat, lines: seq<string>, current: string)
    requires UnderWay(words, measure, width, done, from, n) && Written(words, done, from, n, lines, current)
    requires n < |words| && measure(current + " " + words[n]) <= width
    ensures UnderWay(words, measure, width, done, from, n + 1)
    ensures Written(words, done, from, n + 1, lines, current + " " + words[n])
  {
    JoinOneMore(words, from, n);
    assert words[from..][..n - from + 1] == words[from..n + 1];
  }

  lemma {:induction false} LineIsFull(words: seq<string>, measure: Measure, width: int, from: nat, n: nat)
    requires from < n <= |words| && n - from <= FirstLine(words[from..], measure, width, 1)
    requires n == |words| || !Fits(words[from..n + 1], measure, width)
    ensures FirstLine(words[from..], measure, width, 1) == n - from
  {
    var tail := words[from..];
    assert n < |words| ==> tail[..n - from + 1] == words[from..n + 1];
  }

  lemma {:induction false} Break(words: seq<string>, measure: Measure, width: int, done: seq<seq<string>>, from: nat,
                                 n: nat, lines: seq<string>, current: string)
    requires UnderWay(words, measure, width, done, from, n) && Written(words, done, from, n, lines, current)
    requires n < |words| && measure(current + " " + words[n]) > width
    ensures UnderWay(words, measure, width, done + [words[from..n]], n, n + 1)
    ensures Written(words, done + [words[from..n]], n, n + 1, lines + [current], words[n])
  {
    JoinOneMore(words, from, n);
    GreedyBreaks(words, measure, width, from, n);
    var line, rest := [words[from..n]], Greedy(words[n..], measure, width);
    assert done + (line + rest) == done + line + rest;
    assert words[n..n + 1] == [words[n]];
  }

  lemma {:induction false} GreedyBreaks(words: seq<string>, measure: Measure, width: int, from: nat, n: nat)
    requires from < n <= |words| && n - from <= FirstLine(words[from..], measure, width, 1)
    requires n == |words| || !Fits(words[from..n + 1], measure, width)
    ensures Greedy(words[from..], measure, width) == [words[from..n]] + Greedy(words[n..], measure, width)
  {
    LineIsFull(words, measure, width, from, n);
    var tail := words[from..];
    assert tail[..n - from] == words[from..n] && tail[n - from..] == words[n..];
  }

  lemma {:induction false} Finish(words: seq<string>, measure: Measure, width: int, done: seq<seq<string>>, from: nat,
                                  lines: seq<string>)
    requires UnderWay(words, measure, width, done, from, |words|)
    requires lines == Texts(done) + [Joined(words[from..|words|])]
    ensures lines == Texts(Greedy(words, measure, width))
  {
    GreedyBreaks(words, measure, width, from, |words|);
    assert Greedy(words[|words|..], measure, width) == [];
    assert done + [words[from..|words|]] == Greedy(words, measure, width);
  }

  lemma Begin(words: seq<string>, measure: Measure, width: int)
    requires words != []
    ensures UnderWay(words, measure, width, [], 0, 1) && Written(words, [], 0, 1, [], words[0])
  {
    assert words[0..] == words && words[0..1] == [words[0]];
    assert [] + Greedy(words, measure, width) == Greedy(words, measure, width);
  }

  /** `_wrap_text`, given the words of the text. */
  method WrapText(words: seq<string>, measure: Measure, width: int) returns (lines: seq<string>)
    ensures lines == if words == [] then [""] else Texts(Greedy(words, measure, width))
  {
    if words == [] {
      return [""];
    }
    lines := [];
    ghost var done: seq<seq<string>>, from: nat := [], 0;
    var current := words[0];
    Begin(words, measure, width);
    for n := 1 to |words|
      invariant UnderWay(words, measure, width, done, from, n) && Written(words, done, from, n, lines, current)
    {
      var candidate := current + " " + words[n];
      if measure(candidate) <= width {
        Stretch(words, measure, width, done, from, n, lines, current);
        current := candidate;
      } else {
        Break(words, measure, width, done, from, n, lines, current);
        lines, done, from := lines + [current], done + [words[from..n]], n;
        current := words[n];
      }
    }
    lines := lines + [current];
    Finish(words, measure, width, done, from, lines);
  }

  lemma JoinOneMore(words: seq<string>, from: nat, n: nat)
    requires from < n < |words|
    ensures Joined(words[from..n + 1]) == Joined(words[from..n]) + " " + words[n]
  {
    assert words[from..n + 1][..n - from] == words[from..n];
  }
}
