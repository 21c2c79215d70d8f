/**
 * The newer search engine of viewport/search.go. It searches only the lines that
 * survive the filter (`filteredIndices` over `allLines`), numbers the matches,
 * and decorates one line at a time with a running offset.
 *
 * The fields it reads are not declared in the `model` of viewport.go, so this
 * variant has its own state record. Pointer-receiver methods take the record and
 * return its updated copy.
 */
module Search {
  import opened Wrappers
  import opened Oracles
  import opened Utils
  import Viewport

  /** `searchMatch` of this variant: `id` is the match's position in the result list. */
  datatype SearchMatch = SearchMatch(text: string, id: int, line: int, start: int, end: int)

  /** The fields of `model` this variant reads and writes. */
  datatype Model = Model(
    allLines: seq<string>,
    filteredIndices: seq<int>,
    searchString: string,
    activeMatch: int,
    searchResults: seq<SearchMatch>)

  /** Every filtered index names a line of `allLines`. */
  predicate IndicesValid(allLines: seq<string>, fi: seq<int>)
  {
    forall k :: 0 <= k < |fi| ==> 0 <= fi[k] < |allLines|
  }

  /** The filter keeps lines in increasing order, each at most once. */
  predicate StrictlyIncreasing(fi: seq<int>)
  {
    forall k, k' :: 0 <= k < k' < |fi| ==> Ascends(fi, k, k')
  }

  /** The index at position `k` is below the one at position `k'`. */
  predicate Ascends(fi: seq<int>, k: int, k': int)
    requires 0 <= k < |fi| && 0 <= k' < |fi|
  {
    fi[k] < fi[k']
  }

  /** Every index before the last one is below it. */
  lemma LastIsGreatest(fi: seq<int>, init: seq<int>)
    requires StrictlyIncreasing(fi) && |fi| > 0 && init == fi[..|fi| - 1]
    ensures forall t :: 0 <= t < |init| ==> init[t] < fi[|fi| - 1]
  {
    forall t | 0 <= t < |init| ensures init[t] < fi[|fi| - 1] {
      assert Ascends(fi, t, |fi| - 1);
    }
  }

  // ---------------------------------------------------------------------------
  // search()
  // ---------------------------------------------------------------------------

  /** The matches on line `lineNr`, in column order, numbered from `base`. */
  function LineMatches(eng: Engine, re: Regex, lineNr: int, line: string, base: int): (ms: seq<SearchMatch>)
    ensures |ms| == |FindAll(eng, re, line)|
    ensures forall k :: 0 <= k < |ms| ==>
      && ms[k].id == base + k
      && ms[k].line == lineNr
      && ms[k].start == FindAll(eng, re, line)[k].start
      && ms[k].end == FindAll(eng, re, line)[k].end
      && 0 <= ms[k].start <= ms[k].end <= |line|
      && ms[k].text == line[ms[k].start..ms[k].end]
  {
    var spans := FindAll(eng, re, line);
    seq(|spans|, k requires 0 <= k < |spans| =>
      SearchMatch(line[spans[k].start..spans[k].end], base + k, lineNr, spans[k].start, spans[k].end))
  }

  /**
   * What every result of `search()` satisfies: its id is its position, its line
   * is a filtered one, and its text is the slice between its bounds.
   */
  predicate ResultsFit(allLines: seq<string>, fi: seq<int>, res: seq<SearchMatch>)
  {
    forall i :: 0 <= i < |res| ==>
      && res[i].id == i
      && res[i].line in fi
      && 0 <= res[i].line < |allLines|
      && 0 <= res[i].start <= res[i].end <= |allLines[res[i].line]|
      && res[i].text == allLines[res[i].line][res[i].start..res[i].end]
  }

  /** The matches over the filtered lines, in `filteredIndices` order, then column order. */
  function Collect(eng: Engine, re: Regex, allLines: seq<string>, fi: seq<int>): seq<SearchMatch>
    requires IndicesValid(allLines, fi)
  {
    if fi == [] then []
    else
      var k := |fi| - 1;
      assert IndicesValid(allLines, fi[..k]);
      var prev := Collect(eng, re, allLines, fi[..k]);
      prev + LineMatches(eng, re, fi[k], allLines[fi[k]], |prev|)
  }

  /** Every result of `search()` is numbered by its position, lies on a filtered line and fits it. */
  lemma {:induction false} CollectFits(eng: Engine, re: Regex, allLines: seq<string>, fi: seq<int>)
    requires IndicesValid(allLines, fi)
    ensures ResultsFit(allLines, fi, Collect(eng, re, allLines, fi))
  {
    if fi != [] {
      var k := |fi| - 1;
      assert IndicesValid(allLines, fi[..k]);
      var prev := Collect(eng, re, allLines, fi[..k]);
      CollectFits(eng, re, allLines, fi[..k]);
      var here := LineMatches(eng, re, fi[k], allLines[fi[k]], |prev|);
      var res := prev + here;
      forall i | 0 <= i < |res|
        ensures res[i].id == i && res[i].line in fi && 0 <= res[i].line < |allLines|
        ensures 0 <= res[i].start <= res[i].end <= |allLines[res[i].line]|
        ensures res[i].text == allLines[res[i].line][res[i].start..res[i].end]
      {
        if i < |prev| {
          assert res[i] == prev[i];
          var t :| 0 <= t < k && fi[..k][t] == prev[i].line;
          assert fi[t] == prev[i].line;
        } else {
          assert res[i] == here[i - |prev|];
        }
      }
    }
  }

  /**
   * The active match `search()` hands back: the last match when none was chosen
   * yet, the last match when the old pointer is past the end, otherwise unchanged.
   */
  function SearchActive(active: int, n: nat): (r: int)
    ensures active >= -1 ==> (r == -1 <==> n == 0)
    ensures active >= -1 && n > 0 ==> 0 <= r < n
    ensures n > 0 && active == -1 ==> r == n - 1
    ensures active > n - 1 ==> r == n - 1
    ensures 0 <= active < n ==> r == active
    ensures active < -1 ==> r == active
  {
    if (active == -1 && n > 0) || active > n - 1 then n - 1 else active
  }

  /**
   * `search()`: no results and no active match for an empty or invalid search
   * string; otherwise the numbered matches over the filtered lines.
   */
  method Search(m: Model, eng: Engine) returns (results: seq<SearchMatch>, nextActiveMatch: int)
    requires IndicesValid(m.allLines, m.filteredIndices)
    ensures m.searchString == "" || !eng.compiles(m.searchString) ==> results == [] && nextActiveMatch == -1
    ensures m.searchString != "" && eng.compiles(m.searchString) ==>
      && results == Collect(eng, Regex(m.searchString), m.allLines, m.filteredIndices)
      && nextActiveMatch == SearchActive(m.activeMatch, |results|)
  {
    if m.searchString == "" {
      return [], -1;
    }
    var reg := Compile(eng, m.searchString);
    if reg.None? {
      return [], -1;
    }
    var re := reg.value;
    var fi := m.filteredIndices;
    results := [];
    for k := 0 to |fi|
      invariant IndicesValid(m.allLines, fi[..k])
      invariant results == Collect(eng, re, m.allLines, fi[..k])
    {
      var lineNr := fi[k];
      var line := m.allLines[lineNr];
      var locations := FindAll(eng, re, line);
      ghost var before := results;
      for j := 0 to |locations|
        invariant results == before + LineMatches(eng, re, lineNr, line, |before|)[..j]
      {
        var loc := locations[j];
        results := results + [SearchMatch(line[loc.start..loc.end], |results|, lineNr, loc.start, loc.end)];
      }
      assert LineMatches(eng, re, lineNr, line, |before|)[..|locations|]
        == LineMatches(eng, re, lineNr, line, |before|);
      assert fi[..k + 1][..k] == fi[..k];
    }
    assert fi[..|fi|] == fi;
    nextActiveMatch := m.activeMatch;
    if (nextActiveMatch == -1 && |results| > 0) || nextActiveMatch > |results| - 1 {
      nextActiveMatch := |results| - 1;
    }
  }

  /** `a` comes strictly before `b` in reading order and does not overlap it. */
  predicate Before(a: SearchMatch, b: SearchMatch)
  {
    a.line < b.line || (a.line == b.line && a.end <= b.start)
  }

  /** Every earlier result comes before every later one. */
  predicate InReadingOrder(res: seq<SearchMatch>)
  {
    forall i, j :: 0 <= i < j < |res| ==> Before(res[i], res[j])
  }

  /** The matches of one line come in column order. */
  lemma LineMatchesOrdered(eng: Engine, re: Regex, lineNr: int, line: string, base: int)
    ensures InReadingOrder(LineMatches(eng, re, lineNr, line, base))
  {
    var ms := LineMatches(eng, re, lineNr, line, base);
    forall i, j | 0 <= i < j < |ms| ensures Before(ms[i], ms[j]) {
      assert FindAll(eng, re, line)[i].end <= FindAll(eng, re, line)[j].start;
    }
  }

  /** Ordered matches of earlier lines followed by ordered matches of line `l` stay ordered. */
  lemma ConcatOrdered(a: seq<SearchMatch>, b: seq<SearchMatch>, l: int)
    requires InReadingOrder(a) && InReadingOrder(b)
    requires forall i :: 0 <= i < |a| ==> a[i].line < l
    requires forall j :: 0 <= j < |b| ==> b[j].line == l
    ensures InReadingOrder(a + b)
  {
    var res := a + b;
    forall i, j | 0 <= i < j < |res| ensures Before(res[i], res[j]) {
      if i >= |a| {
        assert res[i] == b[i - |a|] && res[j] == b[j - |a|];
      } else if j >= |a| {
        assert res[i] == a[i] && res[j] == b[j - |a|];
      } else {
        assert res[i] == a[i] && res[j] == a[j];
      }
    }
  }

  /** Matches gathered from lines below `bound` lie on lines below `bound`. */
  lemma CollectBelow(eng: Engine, re: Regex, allLines: seq<string>, fi: seq<int>, bound: int)
    requires IndicesValid(allLines, fi)
    requires forall t :: 0 <= t < |fi| ==> fi[t] < bound
    ensures forall i :: 0 <= i < |Collect(eng, re, allLines, fi)| ==> Collect(eng, re, allLines, fi)[i].line < bound
  {
    var res := Collect(eng, re, allLines, fi);
    CollectFits(eng, re, allLines, fi);
    forall i | 0 <= i < |res| ensures res[i].line < bound {
      var t :| 0 <= t < |fi| && fi[t] == res[i].line;
    }
  }

  /** With the filter's indices increasing, the matches are in line order, then column order. */
  lemma {:induction false} CollectOrdered(eng: Engine, re: Regex, allLines: seq<string>, fi: seq<int>)
    requires IndicesValid(allLines, fi) && StrictlyIncreasing(fi)
    ensures InReadingOrder(Collect(eng, re, allLines, fi))
  {
    if fi != [] {
      var k := |fi| - 1;
      var init := fi[..k];
      DropLast(allLines, fi);
      var prev := Collect(eng, re, allLines, init);
      CollectOrdered(eng, re, allLines, init);
      LastIsGreatest(fi, init);
      CollectBelow(eng, re, allLines, init, fi[k]);
      LineMatchesOrdered(eng, re, fi[k], allLines[fi[k]], |prev|);
      ConcatOrdered(prev, LineMatches(eng, re, fi[k], allLines[fi[k]], |prev|), fi[k]);
    }
  }

  // ---------------------------------------------------------------------------
  // searchResultsAtLine and hasSearchResults
  // ---------------------------------------------------------------------------

  /** The results on line `l`, in their original order. */
  function OnLine(res: seq<SearchMatch>, l: int): (r: seq<SearchMatch>)
    ensures |r| <= |res|
  {
    if res == [] then []
    else
      var prev := OnLine(res[..|res| - 1], l);
      var last := res[|res| - 1];
      if last.line == l then prev + [last] else prev
  }

  /** The results on line `l` are exactly the results whose line is `l`. */
  lemma {:induction false} OnLineMembers(res: seq<SearchMatch>, l: int)
    ensures forall x :: x in OnLine(res, l) <==> x in res && x.line == l
  {
    if res != [] {
      OnLineMembers(res[..|res| - 1], l);
      assert res == res[..|res| - 1] + [res[|res| - 1]];
    }
  }

  /** Filtering by line distributes over concatenation. */
  lemma {:induction false} OnLineAppend(a: seq<SearchMatch>, b: seq<SearchMatch>, l: int)
    ensures OnLine(a + b, l) == OnLine(a, l) + OnLine(b, l)
  {
    if b == [] {
      assert a + b == a;
    } else {
      var n := |b| - 1;
      assert (a + b)[..|a + b| - 1] == a + b[..n];
      OnLineAppend(a, b[..n], l);
    }
  }

  /** Results none of which lie on line `l` contribute nothing to it. */
  lemma {:induction false} OnLineNone(res: seq<SearchMatch>, l: int)
    requires forall i :: 0 <= i < |res| ==> res[i].line != l
    ensures OnLine(res, l) == []
  {
    if res != [] {
      OnLineNone(res[..|res| - 1], l);
    }
  }

  /** Results all of which lie on line `l` are kept whole. */
  lemma {:induction false} OnLineAll(res: seq<SearchMatch>, l: int)
    requires forall i :: 0 <= i < |res| ==> res[i].line == l
    ensures OnLine(res, l) == res
  {
    if res != [] {
      OnLineAll(res[..|res| - 1], l);
      assert res == res[..|res| - 1] + [res[|res| - 1]];
    }
  }

  /** The last filtered line contributes a block of its own matches at the end. */
  lemma CollectLast(eng: Engine, re: Regex, allLines: seq<string>, fi: seq<int>)
    requires IndicesValid(allLines, fi) && |fi| > 0
    ensures IndicesValid(allLines, fi[..|fi| - 1])
    ensures var n := |fi| - 1;
      var prev := Collect(eng, re, allLines, fi[..n]);
      Collect(eng, re, allLines, fi) == prev + LineMatches(eng, re, fi[n], allLines[fi[n]], |prev|)
  {
    assert IndicesValid(allLines, fi[..|fi| - 1]);
  }

  /** On the last filtered line, the results are that line's block of matches. */
  lemma AtLastLine(eng: Engine, re: Regex, allLines: seq<string>, fi: seq<int>)
    requires IndicesValid(allLines, fi) && StrictlyIncreasing(fi) && |fi| > 0
    ensures IndicesValid(allLines, fi[..|fi| - 1])
    ensures var n := |fi| - 1;
      OnLine(Collect(eng, re, allLines, fi), fi[n])
        == LineMatches(eng, re, fi[n], allLines[fi[n]], |Collect(eng, re, allLines, fi[..n])|)
  {
    var n := |fi| - 1;
    var init := fi[..n];
    CollectLast(eng, re, allLines, fi);
    var prev := Collect(eng, re, allLines, init);
    var here := LineMatches(eng, re, fi[n], allLines[fi[n]], |prev|);
    OnLineAppend(prev, here, fi[n]);
    LastIsGreatest(fi, init);
    CollectBelow(eng, re, allLines, init, fi[n]);
    OnLineNone(prev, fi[n]);
    OnLineAll(here, fi[n]);
  }

  /** Results on an earlier filtered line are not affected by the last line's matches. */
  lemma AtEarlierLine(eng: Engine, re: Regex, allLines: seq<string>, fi: seq<int>, k: int)
    requires IndicesValid(allLines, fi) && StrictlyIncreasing(fi) && 0 <= k < |fi| - 1
    ensures IndicesValid(allLines, fi[..|fi| - 1])
    ensures OnLine(Collect(eng, re, allLines, fi), fi[k])
      == OnLine(Collect(eng, re, allLines, fi[..|fi| - 1]), fi[k])
  {
    var n := |fi| - 1;
    CollectLast(eng, re, allLines, fi);
    var prev := Collect(eng, re, allLines, fi[..n]);
    var here := LineMatches(eng, re, fi[n], allLines[fi[n]], |prev|);
    OnLineAppend(prev, here, fi[k]);
    assert Ascends(fi, k, n);
    OnLineNone(here, fi[k]);
    assert OnLine(prev, fi[k]) + [] == OnLine(prev, fi[k]);
  }

  /**
   * The results of `search()` on the filtered line `fi[k]` are exactly the
   * matches `FindAllStringIndex` reports on that line, numbered consecutively.
   */
  lemma {:induction false} CollectAtLine(eng: Engine, re: Regex, allLines: seq<string>, fi: seq<int>, k: int)
    requires IndicesValid(allLines, fi) && StrictlyIncreasing(fi) && 0 <= k < |fi|
    ensures IndicesValid(allLines, fi[..k])
    ensures OnLine(Collect(eng, re, allLines, fi), fi[k])
      == LineMatches(eng, re, fi[k], allLines[fi[k]], |Collect(eng, re, allLines, fi[..k])|)
  {
    var n := |fi| - 1;
    if k == n {
      AtLastLine(eng, re, allLines, fi);
    } else {
      AtEarlierLine(eng, re, allLines, fi, k);
      DropLast(allLines, fi);
      assert fi[..n][..k] == fi[..k] && fi[..n][k] == fi[k];
      CollectAtLine(eng, re, allLines, fi[..n], k);
    }
  }

  /** Dropping the last filtered line keeps the filter valid and increasing. */
  lemma DropLast(allLines: seq<string>, fi: seq<int>)
    requires IndicesValid(allLines, fi) && StrictlyIncreasing(fi) && |fi| > 0
    ensures IndicesValid(allLines, fi[..|fi| - 1]) && StrictlyIncreasing(fi[..|fi| - 1])
  {
    var init := fi[..|fi| - 1];
    forall k, k' | 0 <= k < k' < |init| ensures Ascends(init, k, k') {
      assert Ascends(fi, k, k');
    }
  }

  /** `searchResultsAtLine`: the stored results whose line is `lineNr`. */
  method SearchResultsAtLine(m: Model, lineNr: int) returns (res: seq<SearchMatch>)
    ensures res == OnLine(m.searchResults, lineNr)
  {
    res := [];
    for i := 0 to |m.searchResults|
      invariant res == OnLine(m.searchResults[..i], lineNr)
    {
      assert m.searchResults[..i + 1][..i] == m.searchResults[..i];
      var x := m.searchResults[i];
      if x.line == lineNr {
        res := res + [x];
      }
    }
    assert m.searchResults[..|m.searchResults|] == m.searchResults;
  }

  /** `hasSearchResults`: there are results and an active match has been chosen. */
  function HasSearchResults(m: Model): (r: bool)
    ensures r ==> |m.searchResults| >= 1
    ensures r <==> m.searchResults != [] && m.activeMatch != -1
  {
    |m.searchResults| > 0 && m.activeMatch != -1
  }

  // ---------------------------------------------------------------------------
  // decorateLine
  // ---------------------------------------------------------------------------

  /** The style a match is drawn in: active exactly for the match whose id is the active one. */
  function StyleFor(x: SearchMatch, active: int): (st: Style)
    ensures st == ActiveMatchStyle <==> active >= 0 && x.id == active
    ensures active < 0 ==> st == SearchMatchStyle
  {
    if active >= 0 && active == x.id then ActiveMatchStyle else SearchMatchStyle
  }

  /** The matches lie inside `line` and are sorted and non-overlapping. */
  predicate SpansFit(line: string, ms: seq<SearchMatch>)
  {
    && (forall k :: 0 <= k < |ms| ==> InLine(line, ms, k))
    && (forall i, j :: 0 <= i < j < |ms| ==> EndsBefore(ms, i, j))
  }

  /** Match `k` lies inside `line`. */
  predicate InLine(line: string, ms: seq<SearchMatch>, k: int)
    requires 0 <= k < |ms|
  {
    0 <= ms[k].start <= ms[k].end <= |line|
  }

  /** Match `i` ends no later than match `j` starts. */
  predicate EndsBefore(ms: seq<SearchMatch>, i: int, j: int)
    requires 0 <= i < |ms| && 0 <= j < |ms|
  {
    ms[i].end <= ms[j].start
  }

  /** The column where the first `k` matches end (0 before any match). */
  function PrevEnd(ms: seq<SearchMatch>, k: int): int
    requires 0 <= k <= |ms|
  {
    if k == 0 then 0 else ms[k - 1].end
  }

  /** The first `k` matches end no later than match `k` starts. */
  lemma PrevEndBounds(line: string, ms: seq<SearchMatch>, k: int)
    requires SpansFit(line, ms) && 0 <= k <= |ms|
    ensures 0 <= PrevEnd(ms, k) <= |line|
    ensures k < |ms| ==> PrevEnd(ms, k) <= ms[k].start <= ms[k].end <= |line|
  {
    if k < |ms| {
      assert InLine(line, ms, k);
    }
    if 0 < k {
      assert InLine(line, ms, k - 1);
    }
    if 0 < k < |ms| {
      assert EndsBefore(ms, k - 1, k);
    }
  }

  /**
   * The decorated text up to the end of match `k - 1`: the unmatched text
   * between the first `k` matches, each replaced by its rendering.
   */
  function Woven(line: string, ms: seq<SearchMatch>, k: int, active: int, render: Render): (w: string)
    requires SpansFit(line, ms) && 0 <= k <= |ms|
    decreases k
  {
    if k == 0 then ""
    else
      PrevEndBounds(line, ms, k - 1);
      Woven(line, ms, k - 1, active, render)
        + line[PrevEnd(ms, k - 1)..ms[k - 1].start]
        + render(StyleFor(ms[k - 1], active), ms[k - 1].text)
  }

  /** The decorated line: every match rendered, the text around them kept. */
  function Decorated(line: string, ms: seq<SearchMatch>, active: int, render: Render): string
    requires SpansFit(line, ms)
  {
    DecoratedUpTo(line, ms, |ms|, active, render)
  }

  /** How much longer the first `k` rendered matches are than the text they replace. */
  function Growth(ms: seq<SearchMatch>, k: int, active: int, render: Render): int
    requires 0 <= k <= |ms|
  {
    if k == 0 then 0
    else
      var x := ms[k - 1];
      Growth(ms, k - 1, active, render) + |render(StyleFor(x, active), x.text)| - (x.end - x.start)
  }

  /** The woven prefix is as long as the text it covers plus the growth so far. */
  lemma {:induction false} WovenLength(line: string, ms: seq<SearchMatch>, k: int, active: int, render: Render)
    requires SpansFit(line, ms) && 0 <= k <= |ms|
    ensures |Woven(line, ms, k, active, render)| == PrevEnd(ms, k) + Growth(ms, k, active, render)
  {
    if k > 0 {
      WovenLength(line, ms, k - 1, active, render);
      PrevEndBounds(line, ms, k - 1);
    }
  }

  /** The decorated line is the original length plus each match's growth. */
  lemma DecoratedLength(line: string, ms: seq<SearchMatch>, active: int, render: Render)
    requires SpansFit(line, ms)
    ensures |Decorated(line, ms, active, render)| == |line| + Growth(ms, |ms|, active, render)
  {
    WovenLength(line, ms, |ms|, active, render);
    PrevEndBounds(line, ms, |ms|);
  }

  /** Without matches the line is unchanged. */
  lemma DecoratedNone(line: string, active: int, render: Render)
    ensures Decorated(line, [], active, render) == line
  {
  }

  /** A single match becomes prefix, rendered text, suffix. */
  lemma DecoratedSingle(line: string, x: SearchMatch, active: int, render: Render)
    requires 0 <= x.start <= x.end <= |line|
    ensures SpansFit(line, [x])
    ensures Decorated(line, [x], active, render)
      == line[..x.start] + render(StyleFor(x, active), x.text) + line[x.end..]
  {
    assert Woven(line, [x], 1, active, render) == "" + line[0..x.start] + render(StyleFor(x, active), x.text);
    assert line[0..x.start] == line[..x.start];
  }

  /** All matches lie on one line. */
  predicate SameLine(ms: seq<SearchMatch>)
  {
    forall k :: 0 <= k < |ms| ==> ms[k].line == ms[0].line
  }

  /**
   * In a line decorated up to column `pe` (decorated prefix `w`, then the
   * original text from `pe`), the columns `start` and `end` of the original
   * line, shifted by how much the line has grown, select the same text.
   */
  lemma SpliceShift(w: string, line: string, pe: int, start: int, end: int, styled: string)
    requires 0 <= pe <= start <= end <= |line|
    ensures var cur := w + line[pe..];
      var off := |cur| - |line|;
      && 0 <= start + off <= end + off <= |cur|
      && cur[0..start + off] + styled + cur[end + off..] == w + line[pe..start] + styled + line[end..]
  {
    var cur := w + line[pe..];
    var off := |cur| - |line|;
    assert cur[0..start + off] == w + line[pe..start];
    assert cur[end + off..] == line[end..];
  }

  /** The line after the first `k` matches are rendered: woven prefix, then the untouched rest. */
  function DecoratedUpTo(line: string, ms: seq<SearchMatch>, k: int, active: int, render: Render): string
    requires SpansFit(line, ms) && 0 <= k <= |ms|
  {
    PrevEndBounds(line, ms, k);
    Woven(line, ms, k, active, render) + line[PrevEnd(ms, k)..]
  }

  /**
   * One iteration of `decorateLine`: in the line decorated up to match `k`, the
   * columns of match `k` shifted by the growth so far lie inside the line, and
   * splicing the rendered match there decorates up to match `k + 1`.
   */
  lemma DecorateStep(line: string, ms: seq<SearchMatch>, k: int, active: int, render: Render,
                     cur: string, offset: int, styled: string)
    requires SpansFit(line, ms) && 0 <= k < |ms|
    requires cur == DecoratedUpTo(line, ms, k, active, render)
    requires offset == |cur| - |line|
    requires styled == render(StyleFor(ms[k], active), ms[k].text)
    ensures 0 <= ms[k].start + offset <= ms[k].end + offset <= |cur|
    ensures cur[0..ms[k].start + offset] + styled + cur[ms[k].end + offset..]
      == DecoratedUpTo(line, ms, k + 1, active, render)
  {
    PrevEndBounds(line, ms, k);
    SpliceShift(Woven(line, ms, k, active, render), line, PrevEnd(ms, k), ms[k].start, ms[k].end, styled);
  }

  /** Go's `offsets[l]`: the recorded offset, or 0 for a line not yet seen. */
  function OffsetOf(offsets: map<int, int>, l: int): int
  {
    if l in offsets then offsets[l] else 0
  }

  /**
   * The body of `decorateLine`'s loop for match `k`: shift its columns by the
   * line's recorded offset, splice in its rendering, and add the growth to the
   * offset of its line.
   */
  method RenderMatch(line: string, ms: seq<SearchMatch>, k: int, active: int, render: Render,
                     cur: string, offsets: map<int, int>) returns (newLine: string, newOffsets: map<int, int>)
    requires SpansFit(line, ms) && 0 <= k < |ms|
    requires cur == DecoratedUpTo(line, ms, k, active, render)
    requires OffsetOf(offsets, ms[k].line) == |cur| - |line|
    ensures newLine == DecoratedUpTo(line, ms, k + 1, active, render)
    ensures newOffsets == offsets[ms[k].line := |newLine| - |line|]
  {
    var x := ms[k];
    var offset := OffsetOf(offsets, x.line);
    var start := x.start + offset;
    var end := x.end + offset;
    var styled := if active >= 0 && active == x.id then render(ActiveMatchStyle, x.text)
                  else render(SearchMatchStyle, x.text);
    DecorateStep(line, ms, k, active, render, cur, offset, styled);
    newLine := cur[0..start] + styled + cur[end..];
    offset := |newLine| - |cur|;
    newOffsets := offsets[x.line := OffsetOf(offsets, x.line) + offset];
  }

  /**
   * `decorateLine`: renders every match of one line, left to right, shifting
   * each match's columns by the length the earlier renderings added (the
   * `offsets` map, keyed by line).
   */
  method DecorateLine(line: string, searchResults: seq<SearchMatch>, activeMatch: int, render: Render)
    returns (out: string)
    requires SameLine(searchResults) && SpansFit(line, searchResults)
    ensures out == Decorated(line, searchResults, activeMatch, render)
  {
    var offsets: map<int, int> := map[];
    var cur := line;
    ghost var l0 := if searchResults == [] then 0 else searchResults[0].line;
    assert line[0..] == line;
    for k := 0 to |searchResults|
      invariant cur == DecoratedUpTo(line, searchResults, k, activeMatch, render)
      invariant OffsetOf(offsets, l0) == |cur| - |line|
    {
      assert searchResults[k].line == l0;
      cur, offsets := RenderMatch(line, searchResults, k, activeMatch, render, cur, offsets);
    }
    out := cur;
  }

  /**
   * The results `searchResultsAtLine` picks out of a `search()` answer meet
   * what `decorateLine` needs: they share one line and are sorted inside it.
   */
  lemma AtLineFitsDecorate(eng: Engine, re: Regex, allLines: seq<string>, fi: seq<int>, k: int)
    requires IndicesValid(allLines, fi) && StrictlyIncreasing(fi) && 0 <= k < |fi|
    ensures var ms := OnLine(Collect(eng, re, allLines, fi), fi[k]);
      SameLine(ms) && SpansFit(allLines[fi[k]], ms)
  {
    CollectAtLine(eng, re, allLines, fi, k);
  }

  /** With the offsets, both results of `a` in `aa` are rendered where they were found. */
  lemma SecondMatchInPlace()
    ensures var ms := [SearchMatch("a", 0, 0, 0, 1), SearchMatch("a", 1, 0, 1, 2)];
      SpansFit("aa", ms) && Decorated("aa", ms, 1, Viewport.Brackets()) == "<a>{a}"
  {
    var ms := [SearchMatch("a", 0, 0, 0, 1), SearchMatch("a", 1, 0, 1, 2)];
    assert InLine("aa", ms, 0) && InLine("aa", ms, 1) && EndsBefore(ms, 0, 1);
    assert Woven("aa", ms, 1, 1, Viewport.Brackets()) == "<a>";
    assert Woven("aa", ms, 2, 1, Viewport.Brackets()) == "<a>{a}";
  }

  /** This variant finds the same two results of `a` in `aa`, numbered 0 and 1. */
  lemma TwoMatchResults()
    ensures Collect(Viewport.TwoMatchEngine(), Regex("a"), ["aa"], [0])
      == [SearchMatch("a", 0, 0, 0, 1), SearchMatch("a", 1, 0, 1, 2)]
  {
    assert [0][..0] == [];
    assert FindAll(Viewport.TwoMatchEngine(), Regex("a"), "aa") == [Span(0, 1), Span(1, 2)];
    assert "aa"[0..1] == "a" && "aa"[1..2] == "a";
  }

  /** A sole result, made active by `search()`, is drawn in the active style. */
  lemma SoleResultDrawnActive(line: string, x: SearchMatch, render: Render)
    requires 0 <= x.start <= x.end <= |line| && x.id == 0
    ensures SearchActive(-1, 1) == 0
    ensures SpansFit(line, [x])
    ensures Decorated(line, [x], SearchActive(-1, 1), render)
      == line[..x.start] + render(ActiveMatchStyle, x.text) + line[x.end..]
  {
    DecoratedSingle(line, x, 0, render);
  }

  // ---------------------------------------------------------------------------
  // Navigation
  // ---------------------------------------------------------------------------

  /**
   * `getActiveMatchLine`: -1 without results; otherwise pulls the pointer into
   * range and answers the line of the active result.
   */
  method GetActiveMatchLine(m: Model) returns (r: Model, line: int)
    ensures m.searchResults == [] ==> r == m && line == -1
    ensures m.searchResults != [] ==>
      && r == m.(activeMatch := r.activeMatch)
      && 0 <= r.activeMatch < |m.searchResults|
      && line == m.searchResults[r.activeMatch].line
    ensures m.searchResults != [] && 0 <= m.activeMatch < |m.searchResults| ==> r == m
    ensures m.searchResults != [] && m.activeMatch < 0 ==> r.activeMatch == 0
    ensures m.searchResults != [] && m.activeMatch >= |m.searchResults| ==>
      r.activeMatch == |m.searchResults| - 1
  {
    r := m;
    if |r.searchResults| == 0 {
      return r, -1;
    }
    if r.activeMatch < 0 {
      r := r.(activeMatch := 0);
    } else if r.activeMatch >= |r.searchResults| {
      r := r.(activeMatch := |r.searchResults| - 1);
    }
    line := r.searchResults[r.activeMatch].line;
  }

  /** The pointer after `getNextActiveMatch`: one step down with wraparound. */
  function NextActive(active: int, n: nat): (r: int)
    ensures n >= 1 ==> 0 <= r < n
    ensures 0 < active < n ==> r == active - 1
    ensures n >= 1 && active == 0 ==> r == n - 1
    ensures n >= 1 && active < 0 ==> r == (if n >= 2 then n - 2 else 0)
    ensures n == 0 ==> r == (if active <= 0 then -1 else 0)
  {
    var a := if active < 0 then n - 1 else active;
    ClampLoop(a - 1, 0, n - 1)
  }

  /** The pointer after `getPreviousActiveMatch`: one step up with wraparound. */
  function PreviousActive(active: int, n: nat): (r: int)
    ensures n >= 1 ==> 0 <= r < n
    ensures 0 <= active < n - 1 ==> r == active + 1
    ensures active >= n - 1 ==> r == 0
    ensures active < 0 ==> r == 0
  {
    var a := if active < 0 then n - 1 else active;
    ClampLoop(a + 1, 0, n - 1)
  }

  /** `getNextActiveMatch`: moves the active match one step down and returns it. */
  method GetNextActiveMatch(m: Model) returns (r: Model, active: int)
    ensures active == NextActive(m.activeMatch, |m.searchResults|)
    ensures r == m.(activeMatch := active)
  {
    r := m;
    if r.activeMatch < 0 {
      r := r.(activeMatch := |r.searchResults| - 1);
    }
    r := r.(activeMatch := r.activeMatch - 1);
    r := r.(activeMatch := ClampLoop(r.activeMatch, 0, |r.searchResults| - 1));
    active := r.activeMatch;
  }

  /** `getPreviousActiveMatch`: moves the active match one step up and returns it. */
  method GetPreviousActiveMatch(m: Model) returns (r: Model, active: int)
    ensures active == PreviousActive(m.activeMatch, |m.searchResults|)
    ensures r == m.(activeMatch := active)
  {
    r := m;
    if r.activeMatch < 0 {
      r := r.(activeMatch := |r.searchResults| - 1);
    }
    r := r.(activeMatch := r.activeMatch + 1);
    r := r.(activeMatch := ClampLoop(r.activeMatch, 0, |r.searchResults| - 1));
    active := r.activeMatch;
  }

  /** `k` calls of `getNextActiveMatch`. */
  function NextSteps(active: int, n: nat, k: nat): int
  {
    if k == 0 then active else NextActive(NextSteps(active, n, k - 1), n)
  }

  /** `k` calls of `getPreviousActiveMatch`. */
  function PreviousSteps(active: int, n: nat, k: nat): int
  {
    if k == 0 then active else PreviousActive(PreviousSteps(active, n, k - 1), n)
  }

  /** With results, this variant's navigation agrees step for step with viewport.go's. */
  lemma {:induction false} StepsAgree(active: int, n: nat, k: nat)
    requires n >= 1
    ensures NextSteps(active, n, k) == Viewport.NextIter(active, n, k)
    ensures PreviousSteps(active, n, k) == Viewport.PreviousIter(active, n, k)
  {
    if k > 0 {
      StepsAgree(active, n, k - 1);
    }
  }

  /** `n` calls of either navigation method from an in-range pointer return to it. */
  lemma NavigationCycles(active: int, n: nat)
    requires 0 <= active < n
    ensures NextSteps(active, n, n) == active
    ensures PreviousSteps(active, n, n) == active
  {
    StepsAgree(active, n, n);
    Viewport.NavigationCycles(active, n);
  }

  /** Each navigation method undoes the other on an in-range pointer. */
  lemma NextPreviousInverse(active: int, n: nat)
    requires 0 <= active < n
    ensures PreviousActive(NextActive(active, n), n) == active
    ensures NextActive(PreviousActive(active, n), n) == active
  {
  }
}
