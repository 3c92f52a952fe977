/** Budgeted paging of a skill resource by whole lines. */
module SkillReader {
  import opened Prelude

  const MIN_BUDGET := 1024
  const MAX_BUDGET := 65536

  datatype Failure = InvalidBudget | InvalidRange | StaleResource | LineExceedsBudget

  datatype Page = Page(content: string, lineStart: int, lineEnd: int, continuation: Option<int>)

  datatype Outcome = Answer(page: Page) | Error(failure: Failure)

  /** The encoder's size of one response; a real one is positive and otherwise arbitrary here. */
  type Encoder = Page -> int

  function Join(lines: seq<string>): string {
    if lines == [] then "" else Join(lines[..|lines| - 1]) + lines[|lines| - 1]
  }

  lemma JoinConcat(a: seq<string>, b: seq<string>)
    ensures Join(a + b) == Join(a) + Join(b)
    decreases |b|
  {
    if b == [] {
      assert a + b == a;
    } else {
      var c := a + b;
      assert c[..|c| - 1] == a + b[..|b| - 1] && c[|c| - 1] == b[|b| - 1];
      JoinLast(c);
      JoinLast(b);
      hide Join;
      JoinConcat(a, b[..|b| - 1]);
    }
  }

  lemma JoinLast(lines: seq<string>)
    requires lines != []
    ensures Join(lines) == Join(lines[..|lines| - 1]) + lines[|lines| - 1]
  {
  }

  lemma JoinEmpty(lines: seq<string>)
    requires forall k :: 0 <= k < |lines| ==> lines[k] != ""
    ensures Join(lines) == "" <==> lines == []
  {
  }

  function Stop(lines: seq<string>, lineEnd: Option<int>): int {
    if lineEnd.Some? && lineEnd.value < |lines| then lineEnd.value else |lines|
  }

  /** The page holding lines start..last, when the request ends at `stop`. */
  function PageOf(lines: seq<string>, start: int, last: int, stop: int): Page
    requires 1 <= start <= last + 1 && last <= |lines|
  {
    Page(Join(lines[start - 1..last]), start, last,
         if start <= last < stop then Some(last + 1) else None)
  }

  /** The first line that no longer fits on a page begun at `start`, or the end. */
  ghost predicate Fills(encoded: Encoder, lines: seq<string>, start: int, last: int, stop: int, budget: int)
    requires 1 <= start <= last + 1 && last <= stop <= |lines|
  {
    && (forall k :: start <= k <= last ==> encoded(PageOf(lines, start, k, stop)) <= budget)
    && (last < stop ==> encoded(PageOf(lines, start, last + 1, stop)) > budget)
  }

  ghost predicate Readable(start: int, lineEnd: Option<int>, budget: int) {
    1024 <= budget <= 65536 && start >= 1 && (lineEnd.None? || lineEnd.value >= start)
  }

  /** The last line that was asked for, or the last there is. */
  ghost function Requested(lines: seq<string>, lineEnd: Option<int>): int {
    match lineEnd
    case None => |lines|
    case Some(end) => if end <= |lines| then end else |lines|
  }

  /** The page with one more line, and when the page before it is empty. */
  lemma PageGrows(lines: seq<string>, start: int, index: int, stop: int)
    requires 1 <= start <= index + 1 && index < stop <= |lines| && forall k :: 0 <= k < |lines| ==> lines[k] != ""
    ensures PageOf(lines, start, index + 1, stop) ==
      Page((if index < start then "" else PageOf(lines, start, index, stop).content) + lines[index], start, index + 1,
           if index + 1 < stop then Some(index + 2) else None)
    ensures index >= start ==>
      PageOf(lines, start, index, stop).content != ""
        && PageOf(lines, start, index, stop).continuation == Some(index + 1)
  {
    var before := lines[start - 1..index];
    assert lines[start - 1..index + 1] == before + [lines[index]];
    assert (before + [lines[index]])[..|before|] == before;
    assert Join(before + [lines[index]]) == Join(before) + lines[index];
    JoinEmpty(before);
  }

  /** One page: as many whole lines as fit, and where to go on. */
  method Read(encoded: Encoder, lines: seq<string>, start: int, lineEnd: Option<int>, budget: int, current: bool)
    returns (r: Outcome)
    requires forall k :: 0 <= k < |lines| ==> lines[k] != ""
    ensures !(1024 <= budget <= 65536) <==> r == Error(InvalidBudget)
    ensures 1024 <= budget <= 65536 && !Readable(start, lineEnd, budget) <==> r == Error(InvalidRange)
    ensures Readable(start, lineEnd, budget) && !current <==> r == Error(StaleResource)
    ensures r.Answer? || r == Error(LineExceedsBudget) <==> Readable(start, lineEnd, budget) && current
    ensures r.Answer? && start > Requested(lines, lineEnd) ==> r.page == Page("", start, start - 1, None)
    ensures r.Answer? && start <= Requested(lines, lineEnd) ==>
      var last, stop := r.page.lineEnd, Requested(lines, lineEnd);
      && start <= last <= stop
      && r.page == Page(Join(lines[start - 1..last]), start, last, if last < stop then Some(last + 1) else None)
      && Fills(encoded, lines, start, last, stop, budget)
    ensures r == Error(LineExceedsBudget) <==>
      && Readable(start, lineEnd, budget) && current && start <= Requested(lines, lineEnd)
      && encoded(PageOf(lines, start, start, Requested(lines, lineEnd))) > budget
  {
    if budget < MIN_BUDGET || budget > MAX_BUDGET {
      return Error(InvalidBudget);
    }
    if start < 1 || (lineEnd.Some? && lineEnd.value < start) {
      return Error(InvalidRange);
    }
    if !current {
      return Error(StaleResource);
    }
    hide Join, PageOf;
    var stop := Stop(lines, lineEnd);
    var result := Page("", start, start - 1, None);
    var index := start - 1;
    while index < stop
      invariant start - 1 <= index && (start - 1 <= stop ==> index <= stop)
      invariant index == start - 1 ==> result == Page("", start, start - 1, None)
      invariant index > start - 1 ==> index <= stop && result == PageOf(lines, start, index, stop)
      invariant forall k :: start <= k <= index && index <= stop ==> encoded(PageOf(lines, start, k, stop)) <= budget
    {
      PageGrows(lines, start, index, stop);
      var candidate := Page(result.content + lines[index], start, index + 1,
        if index + 1 < stop then Some(index + 2) else None);
      assert candidate == PageOf(lines, start, index + 1, stop);
      if encoded(candidate) > budget {
        if result.content == "" {
          return Error(LineExceedsBudget);
        }
        result := result.(continuation := Some(index + 1));
        return Answer(result);
      }
      result := candidate;
      index := index + 1;
    }
    r := Answer(result);
  }

  // ----- following the continuation ------------------------------------------------

  /** The last line of the page begun at `start`: the greedy choice, which is unique. */
  ghost function LastLine(encoded: Encoder, lines: seq<string>, start: int, last: int, stop: int, budget: int): (r: int)
    requires 1 <= start <= last + 1 && last <= stop <= |lines|
    requires forall k :: start <= k <= last ==> encoded(PageOf(lines, start, k, stop)) <= budget
    ensures last <= r <= stop && Fills(encoded, lines, start, r, stop, budget)
    decreases stop - last
  {
    if last < stop && encoded(PageOf(lines, start, last + 1, stop)) <= budget
    then LastLine(encoded, lines, start, last + 1, stop, budget) else last
  }

  lemma FillsUnique(encoded: Encoder, lines: seq<string>, start: int, a: int, b: int, stop: int, budget: int)
    requires 1 <= start <= a + 1 && a <= stop <= |lines| && start <= b + 1 && b <= stop
    requires Fills(encoded, lines, start, a, stop, budget) && Fills(encoded, lines, start, b, stop, budget)
    ensures a == b
  {
  }

  datatype Reading = Whole(text: string) | Stuck(line: int, text: string)

  function Prefixed(text: string, r: Reading): Reading {
    match r
    case Whole(rest) => Whole(text + rest)
    case Stuck(line, rest) => Stuck(line, text + rest)
  }

  /** Read page after page from `start`, each time going on at the continuation. */
  ghost function Follow(encoded: Encoder, lines: seq<string>, start: int, stop: int, budget: int): Reading
    requires 1 <= start <= stop + 1 && stop <= |lines|
    decreases stop + 1 - start
  {
    if start > stop then Whole("")
    else
      var last := LastLine(encoded, lines, start, start - 1, stop, budget);
      if last < start then Stuck(start, "")
      else
        var page := PageOf(lines, start, last, stop);
        if page.continuation.None? then Whole(page.content)
        else Prefixed(page.content, Follow(encoded, lines, page.continuation.value, stop, budget))
  }

  /** Where a reading may end: with every requested line, or just before one that cannot
      fit on a page of its own. */
  ghost predicate ReadsLines(encoded: Encoder, lines: seq<string>, start: int, stop: int, budget: int, r: Reading)
    requires 1 <= start <= stop + 1 && stop <= |lines|
  {
    match r
    case Whole(text) => text == Join(lines[start - 1..stop])
    case Stuck(line, text) =>
      && start <= line <= stop && text == Join(lines[start - 1..line - 1])
      && encoded(PageOf(lines, line, line, stop)) > budget
  }

  lemma PrefixReads(encoded: Encoder, lines: seq<string>, start: int, last: int, stop: int, budget: int, r: Reading)
    requires 1 <= start <= last < stop <= |lines| && ReadsLines(encoded, lines, last + 1, stop, budget, r)
    ensures ReadsLines(encoded, lines, start, stop, budget, Prefixed(Join(lines[start - 1..last]), r))
  {
    var end := if r.Whole? then stop else r.line - 1;
    assert lines[start - 1..end] == lines[start - 1..last] + lines[last..end];
    JoinConcat(lines[start - 1..last], lines[last..end]);
  }

  /** The pages put together are exactly the requested lines, or everything before the one
      line that cannot fit on a page of its own. */
  lemma {:induction false} FollowReadsLines(encoded: Encoder, lines: seq<string>, start: int, stop: int, budget: int)
    requires 1 <= start <= stop + 1 && stop <= |lines|
    ensures ReadsLines(encoded, lines, start, stop, budget, Follow(encoded, lines, start, stop, budget))
    decreases stop + 1 - start
  {
    hide Follow, Fills, ReadsLines, LastLine, Prefixed, Join;
    if start > stop {
      NothingLeftToRead(encoded, lines, start, stop, budget);
    } else if encoded(PageOf(lines, start, start, stop)) > budget {
      FollowStuck(encoded, lines, start, stop, budget);
      StuckReads(encoded, lines, start, stop, budget);
    } else {
      var last := LastLine(encoded, lines, start, start, stop, budget);
      FollowOnce(encoded, lines, start, last, stop, budget);
      if last < stop {
        FollowReadsLines(encoded, lines, last + 1, stop, budget);
        PrefixReads(encoded, lines, start, last, stop, budget, Follow(encoded, lines, last + 1, stop, budget));
      } else {
        WholeReads(encoded, lines, start, stop, budget);
      }
    }
  }

  lemma NothingLeftToRead(encoded: Encoder, lines: seq<string>, start: int, stop: int, budget: int)
    requires 1 <= start == stop + 1 && stop <= |lines|
    ensures ReadsLines(encoded, lines, start, stop, budget, Follow(encoded, lines, start, stop, budget))
  {
    hide LastLine;
    assert lines[start - 1..stop] == [];
  }

  lemma StuckReads(encoded: Encoder, lines: seq<string>, start: int, stop: int, budget: int)
    requires 1 <= start <= stop <= |lines| && encoded(PageOf(lines, start, start, stop)) > budget
    ensures ReadsLines(encoded, lines, start, stop, budget, Stuck(start, ""))
  {
    hide PageOf;
    assert lines[start - 1..start - 1] == [];
  }

  lemma WholeReads(encoded: Encoder, lines: seq<string>, start: int, stop: int, budget: int)
    requires 1 <= start <= stop <= |lines|
    ensures ReadsLines(encoded, lines, start, stop, budget, Whole(PageOf(lines, start, stop, stop).content))
  {
    hide Join;
  }

  /** If every line fits on a page of its own, following never gets stuck. */
  lemma FollowSucceeds(encoded: Encoder, lines: seq<string>, start: int, stop: int, budget: int)
    requires 1 <= start <= stop + 1 && stop <= |lines|
    requires forall k :: start <= k <= stop ==> encoded(PageOf(lines, k, k, stop)) <= budget
    ensures Follow(encoded, lines, start, stop, budget) == Whole(Join(lines[start - 1..stop]))
  {
    FollowReadsLines(encoded, lines, start, stop, budget);
  }

  lemma PrefixedTwice(a: string, b: string, r: Reading)
    ensures Prefixed(a, Prefixed(b, r)) == Prefixed(a + b, r)
    ensures Prefixed("", r) == r
  {
    assert a + (b + r.text) == (a + b) + r.text;
    assert "" + r.text == r.text;
  }

  lemma FollowOnce(encoded: Encoder, lines: seq<string>, start: int, last: int, stop: int, budget: int)
    requires 1 <= start <= stop <= |lines| && start <= last <= stop && Fills(encoded, lines, start, last, stop, budget)
    ensures Follow(encoded, lines, start, stop, budget) ==
      var page := PageOf(lines, start, last, stop);
      if last == stop then Whole(page.content)
        else Prefixed(page.content, Follow(encoded, lines, last + 1, stop, budget))
  {
    FillsUnique(encoded, lines, start, last, LastLine(encoded, lines, start, start - 1, stop, budget), stop, budget);
    hide LastLine, Fills, Join, Prefixed;
  }

  lemma FollowStuck(encoded: Encoder, lines: seq<string>, start: int, stop: int, budget: int)
    requires 1 <= start <= stop <= |lines| && encoded(PageOf(lines, start, start, stop)) > budget
    ensures Follow(encoded, lines, start, stop, budget) == Stuck(start, "")
  {
    hide Join, Prefixed;
  }

  /** A reader that keeps asking for the continuation gets that reading. */
  method ReadAll(encoded: Encoder, lines: seq<string>, start: int, stop: int, budget: int) returns (r: Reading)
    requires (forall k :: 0 <= k < |lines| ==>
      lines[k] != "") && 1 <= start <= stop <= |lines| && MIN_BUDGET <= budget <= MAX_BUDGET
    ensures r == Follow(encoded, lines, start, stop, budget)
  {
    hide Follow, Join, Prefixed, Fills;
    var text := "";
    var at := start;
    PrefixedTwice("", "", Follow(encoded, lines, start, stop, budget));
    while true
      invariant start <= at <= stop
      invariant Follow(encoded, lines, start, stop, budget) == Prefixed(text, Follow(encoded, lines, at, stop, budget))
      decreases stop - at
    {
      var page := Read(encoded, lines, at, Some(stop), budget, true);
      if page.Error? {
        FollowStuck(encoded, lines, at, stop, budget);
        assert Prefixed(text, Stuck(at, "")) == Stuck(at, text) by { StuckPrefixed(at, text); }
        return Stuck(at, text);
      }
      var last := page.page.lineEnd;
      FollowOnce(encoded, lines, at, last, stop, budget);
      if page.page.continuation.None? {
        assert Prefixed(text, Whole(page.page.content)) == Whole(text + page.page.content) by {
          WholePrefixed(page.page.content, text);
        }
        return Whole(text + page.page.content);
      }
      PrefixedTwice(text, page.page.content, Follow(encoded, lines, last + 1, stop, budget));
      text := text + page.page.content;
      at := page.page.continuation.value;
    }
  }

  lemma StuckPrefixed(line: int, text: string)
    ensures Prefixed(text, Stuck(line, "")) == Stuck(line, text)
  {
  }

  lemma WholePrefixed(content: string, text: string)
    ensures Prefixed(text, Whole(content)) == Whole(text + content)
  {
  }
}
