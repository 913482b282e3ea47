/*
 * The terminal pager of plugins/tag.py: `pagetext` walks the lines and stops
 * at every index that is a positive multiple of `num_lines` to ask the user
 * whether to go on; `determine_pagination` chooses `num_lines`.
 *
 * Keyboard answers are a sequence consumed in order, and what `print` writes
 * is returned as a sequence of lines together with the indices they came from.
 */
module Pager {
  import opened Text
  import opened Arith

  /** Page length used when the console length cannot be determined. */
  const DefaultPageLength := 25

  /** How a walk over the lines ended. */
  datatype Stop =
    | Completed     // the loop ran over every line
    | Quit          // a prompt was answered with `q` or `Q`
    | EndOfInput    // a prompt found no answer left: `raw_input` raises EOFError
    | ZeroDivision  // `num_lines` is 0 and there is a line: ZeroDivisionError

  /**
   * What one call of the pager did: the indices of the printed lines, the
   * printed lines themselves, how many prompts were shown, and how it ended.
   */
  datatype PageRun = PageRun(shownAt: seq<int>, printed: seq<string>, prompts: nat, stop: Stop)

  /** Python's `a % b`, whose result takes the sign of `b`. */
  function PyMod(a: int, b: int): (r: int)
    requires b != 0
    ensures b > 0 ==> 0 <= r < b
    ensures b < 0 ==> b < r <= 0
    ensures (r == 0) <==> (a % Abs(b) == 0)
  {
    NegatedMod(a, Abs(b));
    if b > 0 then a % b else -((-a) % (-b))
  }

  /** `index % num_lines == 0 and index`: the pager asks before this line. */
  predicate IsPromptIndex(index: int, numLines: int)
    requires numLines != 0
  {
    PyMod(index, numLines) == 0 && index != 0
  }

  /** The number of prompt indices below `len`. */
  function PromptCount(len: nat, numLines: int): nat
    requires numLines != 0
  {
    if len == 0 then 0 else (len - 1) / Abs(numLines)
  }

  /** The first `count` prompt indices, in increasing order. */
  function PromptIndices(numLines: int, count: nat): (r: seq<int>)
    requires numLines != 0
  {
    seq(count, j requires 0 <= j < count => (j + 1) * Abs(numLines))
  }

  /** The lines at the given indices, in the order of the indices. */
  function Pick(lines: seq<string>, at: seq<int>): (r: seq<string>)
    requires forall j :: 0 <= j < |at| ==> 0 <= at[j] < |lines|
    ensures |r| == |at|
    ensures forall j :: 0 <= j < |at| ==> r[j] == lines[at[j]]
  {
    if at == [] then [] else Pick(lines, at[..|at| - 1]) + [lines[at[|at| - 1]]]
  }

  /**
   * How many prompts in a row are answered with something other than quit:
   * at most `limit`, at most the number of answers there are.
   */
  function Continues(answers: seq<string>, limit: nat): (c: nat)
    ensures c <= limit && c <= |answers|
    ensures forall j :: 0 <= j < c ==> !IsQuit(answers[j])
    ensures c == limit || c == |answers| || IsQuit(answers[c])
  {
    if limit == 0 || answers == [] || IsQuit(answers[0]) then 0
    else 1 + Continues(answers[1..], limit - 1)
  }

  /** The `k`-th prompt (counting from 1) lies below `len` iff `k` is at most the prompt count. */
  lemma PromptCountBound(len: nat, numLines: int, k: int)
    requires numLines != 0 && 1 <= k
    ensures k <= PromptCount(len, numLines) <==> k * Abs(numLines) < len
  {
    var m, p := Abs(numLines), PromptCount(len, numLines);
    if len == 0 {
      MulMono(1, k, m);
    } else {
      assert len - 1 == p * m + (len - 1) % m;
      if k <= p {
        MulMono(k, p, m);
      } else {
        MulMono(p + 1, k, m);
      }
    }
  }

  lemma PromptIndicesBelow(len: nat, numLines: int, count: nat)
    requires numLines != 0 && count <= PromptCount(len, numLines)
    ensures forall j :: 0 <= j < count ==> 0 < PromptIndices(numLines, count)[j] < len
  {
    forall j | 0 <= j < count
      ensures 0 < PromptIndices(numLines, count)[j] < len
    {
      PromptCountBound(len, numLines, j + 1);
      MulMono(1, j + 1, Abs(numLines));
    }
  }

  /**
   * The pager as written: only lines at prompt indices are printed, each
   * after the prompt before it was answered with something other than quit.
   */
  function Paged(lines: seq<string>, numLines: int, answers: seq<string>): (run: PageRun)
  {
    if numLines == 0 then
      PageRun([], [], 0, if lines == [] then Completed else ZeroDivision)
    else
      var p := PromptCount(|lines|, numLines);
      var c := Continues(answers, p);
      var at := PromptIndices(numLines, c);
      PromptIndicesBelow(|lines|, numLines, c);
      PageRun(at, Pick(lines, at),
              if c == p then p else c + 1,
              if c == p then Completed else if c == |answers| then EndOfInput else Quit)
  }

  /** Continues is the unique count that its contract describes. */
  lemma ContinuesExact(answers: seq<string>, limit: nat, k: nat)
    requires k <= limit && k <= |answers|
    requires forall j :: 0 <= j < k ==> !IsQuit(answers[j])
    requires k == limit || k == |answers| || IsQuit(answers[k])
    ensures Continues(answers, limit) == k
  {
  }

  /**
   * `k` prompts lie before `index`: one loop step keeps that count right and,
   * at a prompt index, the prompt is the (k+1)-th and lies below `len`.
   */
  lemma PromptStep(len: nat, numLines: int, index: nat, k: nat)
    requires numLines != 0 && index < len
    requires index == 0 ==> k == 0
    requires index > 0 ==> k * Abs(numLines) < index <= (k + 1) * Abs(numLines)
    ensures IsPromptIndex(index, numLines) ==>
      index == (k + 1) * Abs(numLines) && k + 1 <= PromptCount(len, numLines) &&
      (k + 1) * Abs(numLines) < index + 1 <= (k + 2) * Abs(numLines)
    ensures !IsPromptIndex(index, numLines) ==>
      k * Abs(numLines) < index + 1 <= (k + 1) * Abs(numLines)
  {
    var m := Abs(numLines);
    if IsPromptIndex(index, numLines) {
      MultipleInWindow(index, m, k);
      PromptCountBound(len, numLines, k + 1);
    } else if index != 0 {
      ModOfMultiple(k + 1, m);
    }
  }

  /** How the pager loop ended fixes the number of prompts passed. */
  lemma LoopExit(len: nat, numLines: int, answers: seq<string>, k: nat, stop: Stop)
    requires numLines != 0 && k <= |answers|
    requires forall j :: 0 <= j < k ==> !IsQuit(answers[j])
    requires stop == Completed ==> (len == 0 && k == 0) || k * Abs(numLines) < len <= (k + 1) * Abs(numLines)
    requires stop == Quit ==> k < |answers| && IsQuit(answers[k]) && k + 1 <= PromptCount(len, numLines)
    requires stop == EndOfInput ==> k == |answers| && k + 1 <= PromptCount(len, numLines)
    requires stop != ZeroDivision
    ensures Continues(answers, PromptCount(len, numLines)) == k
    ensures stop == Completed <==> k == PromptCount(len, numLines)
  {
    var p := PromptCount(len, numLines);
    if stop == Completed && len > 0 {
      PromptCountBound(len, numLines, k + 1);
      if k >= 1 {
        PromptCountBound(len, numLines, k);
      }
    }
    ContinuesExact(answers, p, k);
  }

  /** `pagetext(text_lined, num_lines)` with `print` and `raw_input` made explicit. */
  method PageText(lines: seq<string>, numLines: int, answers: seq<string>) returns (run: PageRun)
    ensures run == Paged(lines, numLines, answers)
  {
    ghost var m := Abs(numLines);
    var shownAt: seq<int> := [];
    var printed: seq<string> := [];
    var k := 0;   // prompts answered with something other than quit
    var prompts := 0;
    var stop := Completed;
    var index := 0;
    while index < |lines|
      invariant 0 <= index <= |lines|
      invariant numLines == 0 ==> index == 0
      invariant index == 0 ==> k == 0
      invariant numLines != 0 && index > 0 ==> k * m < index <= (k + 1) * m
      invariant k <= |answers| && prompts == k
      invariant forall j :: 0 <= j < k ==> !IsQuit(answers[j])
      invariant numLines != 0 ==> shownAt == PromptIndices(numLines, k)
      invariant forall j :: 0 <= j < |shownAt| ==> 0 <= shownAt[j] < index
      invariant printed == Pick(lines, shownAt)
    {
      if numLines == 0 {
        stop := ZeroDivision;
        break;
      }
      PromptStep(|lines|, numLines, index, k);
      if IsPromptIndex(index, numLines) {
        prompts := prompts + 1;
        if k == |answers| {
          stop := EndOfInput;
          break;
        }
        var input := answers[k];
        if IsQuit(input) {
          stop := Quit;
          break;
        } else {
          printed := printed + [lines[index]];
          shownAt := shownAt + [index];
          k := k + 1;
        }
      }
      index := index + 1;
    }
    if numLines != 0 {
      LoopExit(|lines|, numLines, answers, k, stop);
    }
    run := PageRun(shownAt, printed, prompts, stop);
  }

  /** Every prompt index below `len` is one of the first PromptCount(len) multiples, and only those. */
  lemma PromptIndicesExact(len: nat, numLines: int)
    requires numLines != 0
    ensures forall i :: 0 <= i < len ==>
      (IsPromptIndex(i, numLines) <==> i in PromptIndices(numLines, PromptCount(len, numLines)))
  {
    var m, p := Abs(numLines), PromptCount(len, numLines);
    var all := PromptIndices(numLines, p);
    forall i | 0 <= i < len
      ensures IsPromptIndex(i, numLines) <==> i in all
    {
      if IsPromptIndex(i, numLines) {
        var q := i / m;
        ZeroModIsMultiple(i, m);
        if q <= 0 {
          MulMono(q, 0, m);
        }
        PromptCountBound(len, numLines, q);
        assert all[q - 1] == i;
      }
      if i in all {
        var j :| 0 <= j < p && all[j] == i;
        ModOfMultiple(j + 1, m);
        MulMono(1, j + 1, m);
      }
    }
  }

  /**
   * As written, the printed lines are lines at prompt indices, in input order
   * and without repetition; each was printed after a prompt answered with
   * something other than quit, and there are at most as many prompts as
   * positive multiples of `num_lines` below the number of lines.
   */
  lemma PagedPrintsPromptLines(lines: seq<string>, numLines: int, answers: seq<string>)
    requires numLines != 0
    ensures var run := Paged(lines, numLines, answers);
      |run.printed| == |run.shownAt| <= run.prompts <= PromptCount(|lines|, numLines) &&
      (forall j :: 0 <= j < |run.shownAt| ==>
        0 < run.shownAt[j] < |lines| && IsPromptIndex(run.shownAt[j], numLines) &&
        run.printed[j] == lines[run.shownAt[j]] && !IsQuit(answers[j])) &&
      (forall j1, j2 :: 0 <= j1 < j2 < |run.shownAt| ==> run.shownAt[j1] < run.shownAt[j2])
  {
    var run := Paged(lines, numLines, answers);
    var m, p := Abs(numLines), PromptCount(|lines|, numLines);
    var c := Continues(answers, p);
    var at := PromptIndices(numLines, c);
    assert run.shownAt == at;
    PromptIndicesBelow(|lines|, numLines, c);
    forall j1, j2 | 0 <= j1 < j2 < c
      ensures at[j1] < at[j2]
    {
      MulStrict(j1 + 1, j2 + 1, m);
    }
    forall j | 0 <= j < c
      ensures IsPromptIndex(at[j], numLines)
    {
      ModOfMultiple(j + 1, m);
    }
  }

  /**
   * A quit answer at the (k+1)-th prompt ends the walk there: no later prompt
   * is shown and neither that prompt's line nor any later line is printed.
   */
  lemma PagedQuitStops(lines: seq<string>, numLines: int, answers: seq<string>, k: nat)
    requires numLines != 0
    requires k < |answers| && IsQuit(answers[k])
    ensures var run := Paged(lines, numLines, answers);
      run.prompts <= k + 1 && |run.shownAt| <= k &&
      (forall j :: 0 <= j < |run.shownAt| ==> run.shownAt[j] < (k + 1) * Abs(numLines)) &&
      (k < PromptCount(|lines|, numLines) ==> run.stop == Quit)
  {
    var run := Paged(lines, numLines, answers);
    forall j | 0 <= j < |run.shownAt|
      ensures run.shownAt[j] < (k + 1) * Abs(numLines)
    {
      MulStrict(j + 1, k + 1, Abs(numLines));
    }
  }

  /**
   * As written, even a user who never quits sees exactly the lines at prompt
   * indices: the line at index 0 and every line between two prompts are
   * never printed.
   */
  lemma PagedNeverQuitting(lines: seq<string>, numLines: int, answers: seq<string>)
    requires numLines != 0
    requires PromptCount(|lines|, numLines) <= |answers|
    requires forall j :: 0 <= j < PromptCount(|lines|, numLines) ==> !IsQuit(answers[j])
    ensures var run := Paged(lines, numLines, answers);
      run.stop == Completed && run.prompts == PromptCount(|lines|, numLines) &&
      forall i :: 0 <= i < |lines| ==> (i in run.shownAt <==> IsPromptIndex(i, numLines))
  {
    var p := PromptCount(|lines|, numLines);
    ContinuesExact(answers, p, p);
    PromptIndicesExact(|lines|, numLines);
  }

  /** Two lines at the default page length: nothing is printed and no prompt is shown. */
  lemma PagedSkipsLines()
    ensures Paged(["first", "second"], DefaultPageLength, []) == PageRun([], [], 0, Completed)
  {
    assert PromptCount(2, DefaultPageLength) == 0;
  }

  /** The indices `0 .. n-1` in order. */
  function Upto(n: nat): (r: seq<int>)
  {
    seq(n, i requires 0 <= i < n => i)
  }

  /**
   * The pager as evidently intended: every line is printed in order, and a
   * prompt answered with quit stops the walk before the line it guards.
   */
  function PagedFixed(lines: seq<string>, numLines: int, answers: seq<string>): (run: PageRun)
  {
    if numLines == 0 then
      PageRun([], [], 0, if lines == [] then Completed else ZeroDivision)
    else
      var p := PromptCount(|lines|, numLines);
      var c := Continues(answers, p);
      if c == p then
        PageRun(Upto(|lines|), lines, p, Completed)
      else
        PromptCountBound(|lines|, numLines, c + 1);
        var reach := (c + 1) * Abs(numLines);
        PageRun(Upto(reach), lines[..reach], c + 1, if c == |answers| then EndOfInput else Quit)
  }

  /** `pagetext` with `print line` moved out of the prompt's `if`. */
  method PageTextFixed(lines: seq<string>, numLines: int, answers: seq<string>) returns (run: PageRun)
    ensures run == PagedFixed(lines, numLines, answers)
  {
    ghost var m := Abs(numLines);
    var shownAt: seq<int> := [];
    var printed: seq<string> := [];
    var k := 0;   // prompts answered with something other than quit
    var prompts := 0;
    var stop := Completed;
    var index := 0;
    while index < |lines|
      invariant 0 <= index <= |lines|
      invariant numLines == 0 ==> index == 0
      invariant index == 0 ==> k == 0
      invariant numLines != 0 && index > 0 ==> k * m < index <= (k + 1) * m
      invariant k <= |answers| && prompts == k
      invariant forall j :: 0 <= j < k ==> !IsQuit(answers[j])
      invariant shownAt == Upto(index) && printed == lines[..index]
    {
      if numLines == 0 {
        stop := ZeroDivision;
        break;
      }
      PromptStep(|lines|, numLines, index, k);
      if IsPromptIndex(index, numLines) {
        prompts := prompts + 1;
        if k == |answers| {
          stop := EndOfInput;
          break;
        }
        var input := answers[k];
        if IsQuit(input) {
          stop := Quit;
          break;
        }
        k := k + 1;
      }
      printed := printed + [lines[index]];
      shownAt := shownAt + [index];
      index := index + 1;
    }
    if numLines != 0 {
      LoopExit(|lines|, numLines, answers, k, stop);
    }
    run := PageRun(shownAt, printed, prompts, stop);
  }

  /**
   * Corrected pager: the output is a prefix of the lines, in order, and it
   * is all of them exactly when the walk ran to the end; a quit at a prompt
   * stops the output just before that prompt's line.
   */
  lemma PagedFixedPrefix(lines: seq<string>, numLines: int, answers: seq<string>)
    ensures var run := PagedFixed(lines, numLines, answers);
      |run.printed| <= |lines| && run.printed == lines[..|run.printed|] &&
      run.shownAt == Upto(|run.printed|) &&
      (run.stop == Completed <==> run.printed == lines) &&
      (run.stop == Quit ==> 0 < |run.printed| && IsPromptIndex(|run.printed|, numLines) &&
                            |run.printed| == run.prompts * Abs(numLines) &&
                            IsQuit(answers[run.prompts - 1]))
  {
    var run := PagedFixed(lines, numLines, answers);
    if numLines != 0 {
      var p := PromptCount(|lines|, numLines);
      var c := Continues(answers, p);
      if c < p {
        PromptCountBound(|lines|, numLines, c + 1);
        MulMono(1, c + 1, Abs(numLines));
        ModOfMultiple(c + 1, Abs(numLines));
        assert |run.printed| < |lines|;
      }
    }
  }

  /** Corrected pager: a user who never quits sees every line. */
  lemma PagedFixedPrintsAll(lines: seq<string>, numLines: int, answers: seq<string>)
    requires numLines != 0
    requires PromptCount(|lines|, numLines) <= |answers|
    requires forall j :: 0 <= j < PromptCount(|lines|, numLines) ==> !IsQuit(answers[j])
    ensures PagedFixed(lines, numLines, answers).printed == lines
  {
    var p := PromptCount(|lines|, numLines);
    ContinuesExact(answers, p, p);
  }

  /**
   * `determine_pagination()` for the platform name `system`: both platform
   * branches are empty, so every platform gets the default page length.
   */
  function DeterminePagination(system: string): (lines: int)
    ensures lines == DefaultPageLength
  {
    var thisSystem := Lower(system);
    if thisSystem in ["linux", "darwin", "macosx", "cygwin"] then DefaultPageLength
    else if thisSystem in ["windows", "win32"] then DefaultPageLength
    else DefaultPageLength
  }
}
