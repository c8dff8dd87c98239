/** The line diff: a table of common-subsequence lengths, walked back into an edit script. */
module LineDiff {
  import opened Basics

  datatype Op = Equal | Add | Remove

  /** A row of the side-by-side view; line numbers count from 1. */
  datatype DiffLine = DiffLine(op: Op, left: Option<string>, right: Option<string>, leftNum: Option<nat>, rightNum: Option<nat>)

  // ---- lines ------------------------------------------------------------------------------------

  /** Where the first newline is, or the length. */
  function FirstBreak(s: string): (k: nat)
    ensures k <= |s| && (forall i :: 0 <= i < k ==> s[i] != '\n') && (k < |s| ==> s[k] == '\n')
  {
    if s == [] || s[0] == '\n' then 0 else 1 + FirstBreak(s[1..])
  }

  function Split(s: string): (lines: seq<string>)
    ensures lines != []
  {
    var k := FirstBreak(s);
    if k == |s| then [s] else [s[..k]] + Split(s[k + 1..])
  }

  /** The empty text has no lines. */
  function Lines(s: string): seq<string> { if s == "" then [] else Split(s) }

  function Join(lines: seq<string>): string {
    if lines == [] then "" else if |lines| == 1 then lines[0] else lines[0] + "\n" + Join(lines[1..])
  }

  /** Splitting loses nothing. */
  lemma {:induction false} JoinSplit(s: string)
    ensures Join(Split(s)) == s
  {
    var k := FirstBreak(s);
    if k < |s| {
      JoinSplit(s[k + 1..]);
      assert Split(s)[1..] == Split(s[k + 1..]);
      assert s == s[..k] + "\n" + s[k + 1..];
    }
  }

  // ---- common subsequences ------------------------------------------------------------------------

  function Max(x: nat, y: nat): nat { if x > y then x else y }

  /** Length of the longest common subsequence of the first i and the first j lines. */
  function Lcs(a: seq<string>, b: seq<string>, i: nat, j: nat): nat
    requires i <= |a| && j <= |b|
    decreases i + j
  {
    if i == 0 || j == 0 then 0
    else if a[i - 1] == b[j - 1] then Lcs(a, b, i - 1, j - 1) + 1
    else Max(Lcs(a, b, i - 1, j), Lcs(a, b, i, j - 1))
  }

  /** c is what remains of s after leaving some lines out. */
  predicate Subsequence(c: seq<string>, s: seq<string>)
    decreases |s|
  {
    if c == [] then true
    else if s == [] then false
    else (c[|c| - 1] == s[|s| - 1] && Subsequence(c[..|c| - 1], s[..|s| - 1])) || Subsequence(c, s[..|s| - 1])
  }

  /** Dropping the last line of a subsequence leaves one. */
  lemma {:induction false} SubsequenceShorter(c: seq<string>, s: seq<string>)
    requires c != [] && s != [] && Subsequence(c, s)
    ensures Subsequence(c[..|c| - 1], s[..|s| - 1])
    decreases |s|
  {
    var c', s' := c[..|c| - 1], s[..|s| - 1];
    if Subsequence(c, s') && c' != [] {
      SubsequenceShorter(c, s');
      SubsequenceLonger(c', s'[..|s'| - 1], s'[|s'| - 1]);
      assert s' == s'[..|s'| - 1] + [s'[|s'| - 1]];
    }
  }

  lemma {:induction false} SubsequenceLonger(c: seq<string>, s: seq<string>, x: string)
    requires Subsequence(c, s)
    ensures Subsequence(c, s + [x])
  {
    assert (s + [x])[..|s|] == s;
  }

  lemma {:induction false} SubsequenceBoth(c: seq<string>, s: seq<string>, x: string)
    requires Subsequence(c, s)
    ensures Subsequence(c + [x], s + [x])
  {
    assert (s + [x])[..|s|] == s && (c + [x])[..|c|] == c;
  }

  lemma {:induction false} LcsStep(a: seq<string>, b: seq<string>, i: nat, j: nat)
    requires i <= |a| && j <= |b|
    ensures i > 0 ==> Lcs(a, b, i - 1, j) <= Lcs(a, b, i, j)
    ensures j > 0 ==> Lcs(a, b, i, j - 1) <= Lcs(a, b, i, j)
    ensures i > 0 && j > 0 ==> Lcs(a, b, i, j) <= Lcs(a, b, i - 1, j - 1) + 1
    decreases i + j
  {
    if i > 0 && j > 0 {
      LcsStep(a, b, i - 1, j);
      LcsStep(a, b, i, j - 1);
      LcsStep(a, b, i - 1, j - 1);
    }
  }

  /** No common subsequence is longer. */
  lemma {:induction false} LcsIsUpperBound(a: seq<string>, b: seq<string>, i: nat, j: nat, c: seq<string>)
    requires i <= |a| && j <= |b| && Subsequence(c, a[..i]) && Subsequence(c, b[..j])
    ensures |c| <= Lcs(a, b, i, j)
    decreases i + j
  {
    if c != [] {
      assert a[..i][..i - 1] == a[..i - 1] && b[..j][..j - 1] == b[..j - 1];
      if a[i - 1] == b[j - 1] {
        SubsequenceShorter(c, a[..i]);
        SubsequenceShorter(c, b[..j]);
        LcsIsUpperBound(a, b, i - 1, j - 1, c[..|c| - 1]);
      } else if Subsequence(c, a[..i - 1]) {
        LcsIsUpperBound(a, b, i - 1, j, c);
      } else {
        LcsIsUpperBound(a, b, i, j - 1, c);
      }
    }
  }

  // ---- the script -----------------------------------------------------------------------------------

  /** Whether op can be the last row for the first i and the first j lines. */
  predicate Fits(op: Op, a: seq<string>, b: seq<string>, i: nat, j: nat)
    requires i <= |a| && j <= |b|
  {
    (!op.Add? ==> i > 0) && (!op.Remove? ==> j > 0) && (op.Equal? ==> a[i - 1] == b[j - 1])
  }

  function LeftBefore(op: Op, i: nat): int { if op.Add? then i else i - 1 }
  function RightBefore(op: Op, j: nat): int { if op.Remove? then j else j - 1 }

  function RowFor(op: Op, a: seq<string>, b: seq<string>, i: nat, j: nat): DiffLine
    requires i <= |a| && j <= |b| && Fits(op, a, b, i, j)
  {
    match op
    case Equal => DiffLine(Equal, Some(a[i - 1]), Some(b[j - 1]), Some(i), Some(j))
    case Add => DiffLine(Add, None, Some(b[j - 1]), None, Some(j))
    case Remove => DiffLine(Remove, Some(a[i - 1]), None, Some(i), None)
  }

  /** The last row taken; on a tie the right line. */
  function Choice(a: seq<string>, b: seq<string>, i: nat, j: nat): (op: Op)
    requires i <= |a| && j <= |b| && (i > 0 || j > 0)
    ensures Fits(op, a, b, i, j)
  {
    if i > 0 && j > 0 && a[i - 1] == b[j - 1] then Equal
    else if j > 0 && (i == 0 || Lcs(a, b, i, j - 1) >= Lcs(a, b, i - 1, j)) then Add
    else Remove
  }

  /** The rows for the first i and the first j lines. */
  function Script(a: seq<string>, b: seq<string>, i: nat, j: nat): seq<DiffLine>
    requires i <= |a| && j <= |b|
    decreases i + j
  {
    if i == 0 && j == 0 then []
    else
      var op := Choice(a, b, i, j);
      Script(a, b, LeftBefore(op, i), RightBefore(op, j)) + [RowFor(op, a, b, i, j)]
  }

  function Count(op: Op, rows: seq<DiffLine>): nat {
    if rows == [] then 0 else Count(op, rows[..|rows| - 1]) + if rows[|rows| - 1].op == op then 1 else 0
  }

  /** Any sequence of rows that turns a into b, line by line and numbered. */
  predicate IsScript(rows: seq<DiffLine>, a: seq<string>, b: seq<string>, i: nat, j: nat)
    requires i <= |a| && j <= |b|
    decreases |rows|
  {
    if rows == [] then i == 0 && j == 0
    else
      var row := rows[|rows| - 1];
      Fits(row.op, a, b, i, j) && row == RowFor(row.op, a, b, i, j)
      && IsScript(rows[..|rows| - 1], a, b, LeftBefore(row.op, i), RightBefore(row.op, j))
  }

  /** The lines shown on the left and on the right. */
  function LeftOf(rows: seq<DiffLine>): seq<string> {
    if rows == [] then []
    else
      var row := rows[|rows| - 1];
      LeftOf(rows[..|rows| - 1]) + if row.left.Some? then [row.left.value] else []
  }

  function RightOf(rows: seq<DiffLine>): seq<string> {
    if rows == [] then []
    else
      var row := rows[|rows| - 1];
      RightOf(rows[..|rows| - 1]) + if row.right.Some? then [row.right.value] else []
  }

  lemma {:induction false} ScriptIsScript(a: seq<string>, b: seq<string>, i: nat, j: nat)
    requires i <= |a| && j <= |b|
    ensures IsScript(Script(a, b, i, j), a, b, i, j)
    decreases i + j
  {
    if i > 0 || j > 0 {
      var op := Choice(a, b, i, j);
      var front := Script(a, b, LeftBefore(op, i), RightBefore(op, j));
      ScriptIsScript(a, b, LeftBefore(op, i), RightBefore(op, j));
      assert (front + [RowFor(op, a, b, i, j)])[..|front|] == front;
    }
  }

  lemma {:induction false} ScriptKeepsLcs(a: seq<string>, b: seq<string>, i: nat, j: nat)
    requires i <= |a| && j <= |b|
    ensures Count(Equal, Script(a, b, i, j)) == Lcs(a, b, i, j)
    decreases i + j
  {
    if i > 0 || j > 0 {
      var op := Choice(a, b, i, j);
      var front := Script(a, b, LeftBefore(op, i), RightBefore(op, j));
      ScriptKeepsLcs(a, b, LeftBefore(op, i), RightBefore(op, j));
      assert (front + [RowFor(op, a, b, i, j)])[..|front|] == front;
    }
  }

  /** Both sides of any script read in full. */
  lemma {:induction false} ScriptReads(rows: seq<DiffLine>, a: seq<string>, b: seq<string>, i: nat, j: nat)
    requires i <= |a| && j <= |b| && IsScript(rows, a, b, i, j)
    ensures LeftOf(rows) == a[..i] && RightOf(rows) == b[..j]
    decreases |rows|
  {
    if rows != [] {
      var rest, op := rows[..|rows| - 1], rows[|rows| - 1].op;
      ScriptReads(rest, a, b, LeftBefore(op, i), RightBefore(op, j));
      if !op.Add? { assert a[..i] == a[..i - 1] + [a[i - 1]]; }
      if !op.Remove? { assert b[..j] == b[..j - 1] + [b[j - 1]]; }
    }
  }

  /** Equal rows use a line of each side, the others one of one side. */
  lemma {:induction false} ScriptCounts(rows: seq<DiffLine>, a: seq<string>, b: seq<string>, i: nat, j: nat)
    requires i <= |a| && j <= |b| && IsScript(rows, a, b, i, j)
    ensures Count(Remove, rows) == i - Count(Equal, rows) && Count(Add, rows) == j - Count(Equal, rows)
    decreases |rows|
  {
    if rows != [] {
      var rest, op := rows[..|rows| - 1], rows[|rows| - 1].op;
      ScriptCounts(rest, a, b, LeftBefore(op, i), RightBefore(op, j));
    }
  }

  /** No script has more equal rows. */
  lemma {:induction false} ScriptAtMostLcs(rows: seq<DiffLine>, a: seq<string>, b: seq<string>, i: nat, j: nat)
    requires i <= |a| && j <= |b| && IsScript(rows, a, b, i, j)
    ensures Count(Equal, rows) <= Lcs(a, b, i, j)
    decreases |rows|
  {
    if rows != [] {
      var op := rows[|rows| - 1].op;
      LcsStep(a, b, i, j);
      ScriptAtMostLcs(rows[..|rows| - 1], a, b, LeftBefore(op, i), RightBefore(op, j));
    }
  }

  /** The lines of the equal rows. */
  function Kept(rows: seq<DiffLine>): (c: seq<string>)
    ensures |c| == Count(Equal, rows)
  {
    if rows == [] then []
    else
      var row := rows[|rows| - 1];
      Kept(rows[..|rows| - 1]) + if row.op.Equal? && row.left.Some? then [row.left.value] else if row.op.Equal? then [""] else []
  }

  lemma {:induction false} KeptOne(side: seq<string>, n: nat, k: seq<string>, kept: seq<string>)
    requires 0 < n <= |side| && Subsequence(k, side[..n - 1]) && (kept == k || kept == k + [side[n - 1]])
    ensures Subsequence(kept, side[..n])
  {
    assert side[..n] == side[..n - 1] + [side[n - 1]];
    if kept == k { SubsequenceLonger(k, side[..n - 1], side[n - 1]); } else { SubsequenceBoth(k, side[..n - 1], side[n - 1]); }
  }

  lemma {:induction false} KeptIsCommon(rows: seq<DiffLine>, a: seq<string>, b: seq<string>, i: nat, j: nat)
    requires i <= |a| && j <= |b| && IsScript(rows, a, b, i, j)
    ensures Subsequence(Kept(rows), a[..i]) && Subsequence(Kept(rows), b[..j])
    decreases |rows|
  {
    if rows != [] {
      var rest, op := rows[..|rows| - 1], rows[|rows| - 1].op;
      KeptIsCommon(rest, a, b, LeftBefore(op, i), RightBefore(op, j));
      assert Kept(rows) == if op.Equal? then Kept(rest) + [a[i - 1]] else Kept(rest);
      hide Subsequence, IsScript, Kept;
      if !op.Add? { KeptOne(a, i, Kept(rest), Kept(rows)); }
      if !op.Remove? { KeptOne(b, j, Kept(rest), Kept(rows)); }
    }
  }

  function DiffOf(expected: string, actual: string): seq<DiffLine> {
    var a, b := Lines(expected), Lines(actual);
    Script(a, b, |a|, |b|)
  }

  /** The two columns of the diff are the two texts. */
  lemma {:induction false} ColumnsAreTheTexts(expected: string, actual: string)
    ensures Join(LeftOf(DiffOf(expected, actual))) == expected
    ensures Join(RightOf(DiffOf(expected, actual))) == actual
  {
    var a, b := Lines(expected), Lines(actual);
    ScriptIsScript(a, b, |a|, |b|);
    ScriptReads(DiffOf(expected, actual), a, b, |a|, |b|);
    assert a[..|a|] == a && b[..|b|] == b;
    JoinSplit(expected);
    JoinSplit(actual);
  }

  /** The lines shown as equal are a longest common subsequence of the two texts' lines. */
  lemma {:induction false} EqualRowsAreLongest(expected: string, actual: string, c: seq<string>)
    requires Subsequence(c, Lines(expected)) && Subsequence(c, Lines(actual))
    ensures var kept := Kept(DiffOf(expected, actual));
            Subsequence(kept, Lines(expected)) && Subsequence(kept, Lines(actual)) && |c| <= |kept|
  {
    var a, b := Lines(expected), Lines(actual);
    assert a[..|a|] == a && b[..|b|] == b;
    ScriptIsScript(a, b, |a|, |b|);
    KeptIsCommon(DiffOf(expected, actual), a, b, |a|, |b|);
    ScriptKeepsLcs(a, b, |a|, |b|);
    LcsIsUpperBound(a, b, |a|, |b|, c);
  }

  /** No script that turns one text into the other changes fewer lines. */
  lemma {:induction false} DiffIsMinimal(expected: string, actual: string, rows: seq<DiffLine>)
    requires var a, b := Lines(expected), Lines(actual); IsScript(rows, a, b, |a|, |b|)
    ensures var d := DiffOf(expected, actual); Count(Add, d) + Count(Remove, d) <= Count(Add, rows) + Count(Remove, rows)
  {
    var a, b := Lines(expected), Lines(actual);
    ScriptIsScript(a, b, |a|, |b|);
    ScriptCounts(DiffOf(expected, actual), a, b, |a|, |b|);
    ScriptCounts(rows, a, b, |a|, |b|);
    ScriptKeepsLcs(a, b, |a|, |b|);
    ScriptAtMostLcs(rows, a, b, |a|, |b|);
  }

  // ---- as the program does it ---------------------------------------------------------------------

  ghost predicate RowDone(dp: array2<nat>, a: seq<string>, b: seq<string>, i: nat)
    requires i <= |a| && dp.Length0 == |a| + 1 && dp.Length1 == |b| + 1
    reads dp
  {
    forall y :: 0 <= y <= |b| ==> dp[i, y] == Lcs(a, b, i, y)
  }

  /** One entry, from its three neighbours. */
  method Cell(dp: array2<nat>, a: seq<string>, b: seq<string>, i: nat, j: nat) returns (v: nat)
    requires 1 <= i <= |a| && 1 <= j <= |b| && dp.Length0 == |a| + 1 && dp.Length1 == |b| + 1
    requires RowDone(dp, a, b, i - 1) && dp[i, j - 1] == Lcs(a, b, i, j - 1)
    ensures v == Lcs(a, b, i, j)
  {
    if a[i - 1] == b[j - 1] {
      v := dp[i - 1, j - 1] + 1;
    } else {
      v := Max(dp[i - 1, j], dp[i, j - 1]);
    }
  }

  lemma {:induction false} LcsEdge(a: seq<string>, b: seq<string>, i: nat)
    requires i <= |a|
    ensures Lcs(a, b, i, 0) == 0
  {}

  method FillRow(dp: array2<nat>, a: seq<string>, b: seq<string>, i: nat)
    requires 1 <= i <= |a| && dp.Length0 == |a| + 1 && dp.Length1 == |b| + 1
    requires RowDone(dp, a, b, i - 1) && dp[i, 0] == 0
    modifies dp
    ensures RowDone(dp, a, b, i)
    ensures forall x, y :: 0 <= x <= |a| && 0 <= y <= |b| && x != i ==> dp[x, y] == old(dp[x, y])
  {
    hide Lcs;
    LcsEdge(a, b, i);
    for j := 1 to |b| + 1
      invariant forall y :: 0 <= y < j ==> dp[i, y] == Lcs(a, b, i, y)
      invariant forall x, y :: 0 <= x <= |a| && 0 <= y <= |b| && x != i ==> dp[x, y] == old(dp[x, y])
    {
      assert RowDone(dp, a, b, i - 1) by { assert old(RowDone(dp, a, b, i - 1)); }
      var v := Cell(dp, a, b, i, j);
      dp[i, j] := v;
    }
  }

  method FillTable(a: seq<string>, b: seq<string>) returns (dp: array2<nat>)
    ensures fresh(dp) && dp.Length0 == |a| + 1 && dp.Length1 == |b| + 1
    ensures forall i :: 0 <= i <= |a| ==> RowDone(dp, a, b, i)
  {
    dp := new nat[|a| + 1, |b| + 1]((_, _) => 0);
    for i := 1 to |a| + 1
      invariant forall x :: 0 <= x < i ==> RowDone(dp, a, b, x)
      invariant forall x :: i <= x <= |a| ==> dp[x, 0] == 0
    {
      label before:
      FillRow(dp, a, b, i);
      forall x | 0 <= x < i ensures RowDone(dp, a, b, x) { assert old@before(RowDone(dp, a, b, x)); }
    }
  }

  function Reversed(rows: seq<DiffLine>): seq<DiffLine> {
    if rows == [] then [] else [rows[|rows| - 1]] + Reversed(rows[..|rows| - 1])
  }

  lemma {:induction false} ReversedAppend(rows: seq<DiffLine>, row: DiffLine)
    ensures Reversed(rows + [row]) == [row] + Reversed(rows)
  {
    assert (rows + [row])[..|rows|] == rows;
  }

  method Pick(a: seq<string>, b: seq<string>, dp: array2<nat>, i: nat, j: nat) returns (op: Op)
    requires dp.Length0 == |a| + 1 && dp.Length1 == |b| + 1 && forall i :: 0 <= i <= |a| ==> RowDone(dp, a, b, i)
    requires i <= |a| && j <= |b| && (i > 0 || j > 0)
    ensures op == Choice(a, b, i, j)
  {
    assert RowDone(dp, a, b, i) && (i > 0 ==> RowDone(dp, a, b, i - 1));
    if i > 0 && j > 0 && a[i - 1] == b[j - 1] {
      op := Equal;
    } else if j > 0 && (i == 0 || dp[i, j - 1] >= dp[i - 1, j]) {
      op := Add;
    } else {
      op := Remove;
    }
  }

  /** From the table's last corner back to its first, the last row first. */
  method Backtrack(a: seq<string>, b: seq<string>, dp: array2<nat>) returns (stack: seq<DiffLine>)
    requires dp.Length0 == |a| + 1 && dp.Length1 == |b| + 1 && forall i :: 0 <= i <= |a| ==> RowDone(dp, a, b, i)
    ensures Reversed(stack) == Script(a, b, |a|, |b|)
  {
    hide Choice, RowFor, RowDone;
    var i, j := |a|, |b|;
    stack := [];
    while i > 0 || j > 0
      invariant 0 <= i <= |a| && 0 <= j <= |b|
      invariant Script(a, b, i, j) + Reversed(stack) == Script(a, b, |a|, |b|)
      decreases i + j
    {
      var op := Pick(a, b, dp, i, j);
      ghost var front := Script(a, b, LeftBefore(op, i), RightBefore(op, j));
      var row := RowFor(op, a, b, i, j);
      assert Script(a, b, i, j) == front + [row];
      ReversedAppend(stack, row);
      assert (front + [row]) + Reversed(stack) == front + ([row] + Reversed(stack));
      stack := stack + [row];
      i, j := LeftBefore(op, i), RightBefore(op, j);
    }
  }

  method ComputeLineDiff(expected: string, actual: string) returns (result: seq<DiffLine>)
    ensures result == DiffOf(expected, actual)
  {
    var a := Lines(expected);
    var b := Lines(actual);
    var dp := FillTable(a, b);
    var stack := Backtrack(a, b, dp);
    result := [];
    while stack != []
      invariant result + Reversed(stack) == Script(a, b, |a|, |b|)
      decreases |stack|
    {
      result := result + [stack[|stack| - 1]];
      stack := stack[..|stack| - 1];
    }
  }

  method CountChanges(diff: seq<DiffLine>) returns (adds: nat, removals: nat)
    ensures adds == Count(Add, diff) && removals == Count(Remove, diff)
  {
    adds, removals := 0, 0;
    for k := 0 to |diff|
      invariant adds == Count(Add, diff[..k]) && removals == Count(Remove, diff[..k])
    {
      assert diff[..k + 1][..k] == diff[..k];
      if diff[k].op == Add { adds := adds + 1; }
      if diff[k].op == Remove { removals := removals + 1; }
    }
    assert diff[..|diff|] == diff;
  }
}
