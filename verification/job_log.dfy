/** The bounded per-job log and its cursor paging. A line is its sequence of bytes. */
module JobLog {

  const MAX_LINES := 1000
  const DEFAULT_MAX_LOG_BYTES := 16 * 1024 * 1024
  const MAX_PAGE := 2000
  const DEFAULT_PAGE := 200

  datatype Log = Log(lines: seq<string>, count: nat, bytes: nat, truncated: bool)

  const EMPTY_LOG := Log([], 0, 0, false)

  function TotalBytes(lines: seq<string>): nat {
    if lines == [] then 0 else TotalBytes(lines[..|lines| - 1]) + |lines[|lines| - 1]|
  }

  /** The log after one more line. */
  function Appended(g: Log, line: string, limit: nat): Log {
    if g.truncated || |g.lines| >= MAX_LINES || g.bytes >= limit then
      g.(truncated := true)
    else
      var room := limit - g.bytes;
      var kept := if |line| > room then line[..room] else line;
      Log(g.lines + [kept], |g.lines| + 1, g.bytes + |kept|, |line| > room)
  }

  /** The log after a whole run of lines. */
  function Collected(input: seq<string>, limit: nat): Log {
    if input == [] then EMPTY_LOG
    else Appended(Collected(input[..|input| - 1], limit), input[|input| - 1], limit)
  }

  /** `lines` are the first lines of `input`, except that the last may be cut short. */
  ghost predicate PrefixWithLastCut(lines: seq<string>, input: seq<string>) {
    && |lines| <= |input|
    && (lines != [] ==>
          && lines[..|lines| - 1] == input[..|lines| - 1]
          && lines[|lines| - 1] <= input[|lines| - 1])
  }

  ghost predicate BoundedPrefix(g: Log, input: seq<string>, limit: nat) {
    && |g.lines| <= MAX_LINES && g.count == |g.lines|
    && g.bytes == TotalBytes(g.lines) <= limit
    && (!g.truncated ==> g.lines == input)
    && (g.truncated ==> g.lines != input && (|g.lines| == MAX_LINES || g.bytes == limit))
    && PrefixWithLastCut(g.lines, input)
  }

  /** Both bounds hold, the counters are exact, and nothing is lost unless the log says so;
      when it says so, a bound was reached. */
  lemma {:induction false} LogIsBoundedPrefix(input: seq<string>, limit: nat)
    ensures BoundedPrefix(Collected(input, limit), input, limit)
  {
    if input != [] {
      var init, line := input[..|input| - 1], input[|input| - 1];
      LogIsBoundedPrefix(init, limit);
      AppendKeepsBoundedPrefix(Collected(init, limit), init, line, limit);
      assert input == init + [line];
    }
  }

  lemma AppendKeepsBoundedPrefix(g: Log, init: seq<string>, line: string, limit: nat)
    requires BoundedPrefix(g, init, limit)
    ensures BoundedPrefix(Appended(g, line, limit), init + [line], limit)
  {
    var input, g' := init + [line], Appended(g, line, limit);
    if g'.lines == g.lines {
      if g.lines != [] {
        assert g.lines[..|g.lines| - 1] == init[..|g.lines| - 1] == input[..|g.lines| - 1];
      }
    } else {
      assert g'.lines[..|g.lines|] == g.lines == init == input[..|g.lines|];
    }
  }

  /** Lines already stored never change or move. */
  lemma StoredLinesStay(g: Log, line: string, limit: nat)
    ensures g.lines <= Appended(g, line, limit).lines
    ensures g.truncated ==> Appended(g, line, limit) == g
  {
  }

  lemma {:induction false} BytesGrow(lines: seq<string>)
    requires lines != []
    ensures TotalBytes(lines[..|lines| - 1]) <= TotalBytes(lines)
  {
  }

  /** The output fits: a thousand lines at most, and every line begins and ends within the byte limit. */
  predicate Fits(input: seq<string>, limit: nat) {
    && |input| <= 1000 && TotalBytes(input) <= limit
    && (input != [] ==> TotalBytes(input[..|input| - 1]) < limit)
  }

  /** A log keeps everything exactly as long as it fits. */
  lemma {:induction false} LogKeepsWhatFits(input: seq<string>, limit: nat)
    ensures !Collected(input, limit).truncated <==> Fits(input, limit)
    ensures Fits(input, limit) ==> Collected(input, limit) == Log(input, |input|, TotalBytes(input), false)
  {
    if input != [] {
      var init, line := input[..|input| - 1], input[|input| - 1];
      LogKeepsWhatFits(init, limit);
      assert input == init + [line];
      if init != [] {
        BytesGrow(init);
      }
    }
  }

  // ---------- paging ----------

  function ClampedCursor(cursor: int, size: nat): nat {
    if cursor < 0 then 0 else if cursor > size then size else cursor
  }

  function PageSize(limit: int): (n: nat)
    ensures 0 < n <= MAX_PAGE
  {
    if limit <= 0 || limit > MAX_PAGE then DEFAULT_PAGE else limit
  }

  function PageEnd(lines: seq<string>, cursor: int, limit: int): (end: nat)
    ensures ClampedCursor(cursor, |lines|) <= end <= |lines|
  {
    var start := ClampedCursor(cursor, |lines|);
    if start + PageSize(limit) > |lines| then |lines| else start + PageSize(limit)
  }

  function Page(lines: seq<string>, cursor: int, limit: int): seq<string> {
    lines[ClampedCursor(cursor, |lines|)..PageEnd(lines, cursor, limit)]
  }

  /** A page begins at the cursor, or at the nearest end, and holds as many lines as asked for, from one to two
      thousand and else two hundred, or as there are. */
  lemma PageHoldsLimit(lines: seq<string>, cursor: int, limit: int)
    ensures var start := if cursor < 0 then 0 else if cursor > |lines| then |lines| else cursor;
      var wanted := if 1 <= limit <= 2000 then limit else 200;
      var held := if wanted <= |lines| - start then wanted else |lines| - start;
      Page(lines, cursor, limit) == lines[start..start + held] && PageEnd(lines, cursor, limit) == start + held
  {
  }

  /** A reader that starts at 0 and passes each returned cursor to the next call. */
  function Cursor(views: seq<seq<string>>, limits: seq<int>, n: nat): nat
    requires n <= |views| == |limits|
  {
    if n == 0 then 0 else PageEnd(views[n - 1], Cursor(views, limits, n - 1), limits[n - 1])
  }

  function ReadSoFar(views: seq<seq<string>>, limits: seq<int>, n: nat): seq<string>
    requires n <= |views| == |limits|
  {
    if n == 0 then []
    else ReadSoFar(views, limits, n - 1) + Page(views[n - 1], Cursor(views, limits, n - 1), limits[n - 1])
  }

  ghost predicate Grows(views: seq<seq<string>>) {
    forall i, j :: 0 <= i <= j < |views| ==> views[i] <= views[j]
  }

  lemma PageJoins(lines: seq<string>, seen: seq<string>, at: nat, limit: int)
    requires at <= |lines| && seen == lines[..at]
    ensures seen + Page(lines, at, limit) == lines[..PageEnd(lines, at, limit)]
    ensures at < |lines| ==> at < PageEnd(lines, at, limit)
  {
    assert lines[..at] + lines[at..PageEnd(lines, at, limit)] == lines[..PageEnd(lines, at, limit)];
  }

  lemma PrefixTakes(a: seq<string>, b: seq<string>, at: nat)
    requires a <= b && at <= |a|
    ensures a[..at] == b[..at]
  {
  }

  /** However the log grows between calls, the pages joined together are exactly the log up
      to the cursor: every line once, in order. A call that is behind makes progress. */
  lemma {:induction false} PagingReadsEachLineOnce(views: seq<seq<string>>, limits: seq<int>, n: nat)
    requires Grows(views) && n <= |views| == |limits|
    ensures n > 0 ==> Cursor(views, limits, n) <= |views[n - 1]|
                      && ReadSoFar(views, limits, n) == views[n - 1][..Cursor(views, limits, n)]
    ensures n == 0 ==> ReadSoFar(views, limits, n) == []
    ensures n > 0 ==> Cursor(views, limits, n) >= Cursor(views, limits, n - 1)
    ensures n > 0 && Cursor(views, limits, n - 1) < |views[n - 1]| ==> Cursor(views, limits, n) > Cursor(views, limits, n - 1)
  {
    if n > 0 {
      PagingReadsEachLineOnce(views, limits, n - 1);
      var at, lines := Cursor(views, limits, n - 1), views[n - 1];
      if n > 1 {
        PrefixTakes(views[n - 2], lines, at);
      }
      PageJoins(lines, ReadSoFar(views, limits, n - 1), at, limits[n - 1]);
    }
  }

  /** The log as it stood after the first `at[i]` lines of the job's output. */
  ghost predicate ViewsOfLog(views: seq<seq<string>>, input: seq<string>, at: seq<nat>, limit: nat) {
    && |views| == |at|
    && (forall i, j :: 0 <= i <= j < |at| ==> at[i] <= at[j] <= |input|)
    && forall i :: 0 <= i < |at| ==> views[i] == Collected(input[..at[i]], limit).lines
  }

  lemma {:induction false} LogOnlyGrows(input: seq<string>, j: nat, k: nat, limit: nat)
    requires j <= k <= |input|
    ensures Collected(input[..j], limit).lines <= Collected(input[..k], limit).lines
    ensures Collected(input[..j], limit).truncated ==> Collected(input[..k], limit) == Collected(input[..j], limit)
  {
    if j < k {
      LogOnlyGrows(input, j, k - 1, limit);
      assert input[..k][..k - 1] == input[..k - 1];
      StoredLinesStay(Collected(input[..k - 1], limit), input[k - 1], limit);
    }
  }

  lemma ViewsGrow(views: seq<seq<string>>, input: seq<string>, at: seq<nat>, limit: nat)
    requires ViewsOfLog(views, input, at, limit)
    ensures Grows(views)
  {
    forall i, j | 0 <= i <= j < |views|
      ensures views[i] <= views[j]
    {
      LogOnlyGrows(input, at[i], at[j], limit);
    }
  }

  /** The last call's page reaches the end of what it saw as soon as that fits. */
  lemma LastPageReachesEnd(views: seq<seq<string>>, limits: seq<int>, n: nat)
    requires Grows(views) && 0 < n <= |views| == |limits|
    ensures |views[n - 1]| - Cursor(views, limits, n - 1) <= PageSize(limits[n - 1]) ==>
              Cursor(views, limits, n) == |views[n - 1]|
  {
    PagingReadsEachLineOnce(views, limits, n - 1);
    if n > 1 {
      assert views[n - 2] <= views[n - 1];
    }
  }

  /** A reader that polls while the job writes: what it has read after each call is the
      job's output up to the cursor, the last line cut only if the log is truncated, and all
      of the log as soon as that fits the page. */
  lemma ReaderFollowsOutput(views: seq<seq<string>>, limits: seq<int>, input: seq<string>, at: seq<nat>, limit: nat, n: nat)
    requires ViewsOfLog(views, input, at, limit) && 0 < n <= |views| == |limits|
    ensures var g, cursor, read := Collected(input[..at[n - 1]], limit), Cursor(views, limits, n), ReadSoFar(views, limits, n);
      && cursor <= |g.lines| && read == g.lines[..cursor]
      && PrefixWithLastCut(read, input)
      && (!g.truncated ==> read == input[..cursor])
      && (|g.lines| - Cursor(views, limits, n - 1) <= PageSize(limits[n - 1]) ==> read == g.lines)
  {
    ViewsGrow(views, input, at, limit);
    PagingReadsEachLineOnce(views, limits, n);
    LastPageReachesEnd(views, limits, n);
    var seen := input[..at[n - 1]];
    LogIsBoundedPrefix(seen, limit);
    PrefixOfPrefix(views[n - 1], seen, input, Cursor(views, limits, n));
  }

  lemma PrefixOfPrefix(lines: seq<string>, seen: seq<string>, input: seq<string>, cursor: nat)
    requires PrefixWithLastCut(lines, seen) && seen <= input && cursor <= |lines|
    ensures PrefixWithLastCut(lines[..cursor], input)
  {
    if cursor > 0 {
      assert lines[..cursor][..cursor - 1] == lines[..|lines| - 1][..cursor - 1] == input[..cursor - 1];
      if cursor < |lines| {
        assert lines[cursor - 1] == lines[..|lines| - 1][cursor - 1] == seen[..|lines| - 1][cursor - 1];
      }
    }
  }
}
