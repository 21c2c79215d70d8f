/**
 * The all-in-one viewer model of viewport/viewport.go: the filter and search
 * fields, the search results with the active-match pointer, and the two content
 * transforms (filtering lines, highlighting matches).
 *
 * Go's `model` is a value type. Value-receiver methods become functions from
 * the record to its updated copy; pointer-receiver methods, always called on
 * the local copy inside `Update`, become methods that take the record and
 * return its updated copy.
 */
module Viewport {
  import opened Wrappers
  import opened Oracles
  import opened Lines

  /** `fieldStatus`: which string the text input edits (FILTER = 0, SEARCH = 1). */
  datatype FieldStatus = Filter | Search

  /** The textinput widget, reduced to its value and whether it has focus. */
  datatype TextInput = TextInput(value: string, focused: bool)

  /** `searchMatch` of this variant: no id; `line` indexes the filtered lines. */
  datatype SearchMatch = SearchMatch(text: string, line: int, start: int, end: int)

  /** The fields of `model` that the filter/search engine reads or writes. */
  datatype Model = Model(
    activeMatch: int,
    content: string,
    filterString: string,
    searchString: string,
    searchResults: seq<SearchMatch>,
    input: TextInput,
    fieldStatus: FieldStatus)

  /** `NewModel`: no content, no strings, no active match, the input focused. */
  function NewModel(): (m: Model)
    ensures m.activeMatch == -1 && m.content == "" && m.searchResults == []
    ensures m.filterString == "" && m.searchString == ""
    ensures m.input == TextInput("", true) && m.fieldStatus == Filter
    ensures InSync(m)
  {
    Model(-1, "", "", "", [], TextInput("", true), Filter)
  }

  // ---------------------------------------------------------------------------
  // Field transitions (value receivers)
  // ---------------------------------------------------------------------------

  /** The string of the field being edited agrees with the input's value. */
  predicate InSync(m: Model)
  {
    match m.fieldStatus
    case Filter => m.filterString == m.input.value
    case Search => m.searchString == m.input.value
  }

  /**
   * `updateStrings`: copies the input's value into the string of the current
   * field; a changed search string also forgets the active match.
   */
  function UpdateStrings(m: Model): (r: Model)
    ensures InSync(r)
    ensures r.input == m.input && r.fieldStatus == m.fieldStatus
    ensures r.content == m.content && r.searchResults == m.searchResults
    ensures m.fieldStatus == Filter ==>
      r.filterString == m.input.value && r.searchString == m.searchString && r.activeMatch == m.activeMatch
    ensures m.fieldStatus == Search ==>
      r.searchString == m.input.value && r.filterString == m.filterString
    ensures m.fieldStatus == Search ==>
      r.activeMatch == (if m.searchString != m.input.value then -1 else m.activeMatch)
    ensures InSync(m) <==> r == m
  {
    match m.fieldStatus
    case Filter => m.(filterString := m.input.value)
    case Search =>
      if m.searchString != m.input.value then m.(activeMatch := -1, searchString := m.input.value)
      else m
  }

  /** `clearCurrentString`: empties the current field's string and the input's value. */
  function ClearCurrentString(m: Model): (r: Model)
    ensures r.input == m.input.(value := "") && r.fieldStatus == m.fieldStatus
    ensures m.fieldStatus == Filter ==> r.filterString == "" && r.searchString == m.searchString
    ensures m.fieldStatus == Search ==> r.searchString == "" && r.filterString == m.filterString
    ensures r.activeMatch == m.activeMatch && r.content == m.content && r.searchResults == m.searchResults
    ensures InSync(r) && UpdateStrings(r) == r
  {
    match m.fieldStatus
    case Filter => m.(filterString := "", input := m.input.(value := ""))
    case Search => m.(searchString := "", input := m.input.(value := ""))
  }

  /** `blur` (Escape): clears the current field and takes the focus from the input. */
  function Blur(m: Model): (r: Model)
    ensures !r.input.focused && r.input.value == "" && r.fieldStatus == m.fieldStatus
    ensures m.fieldStatus == Filter ==> r.filterString == "" && r.searchString == m.searchString
    ensures m.fieldStatus == Search ==> r.searchString == "" && r.filterString == m.filterString
    ensures r.activeMatch == m.activeMatch && r.content == m.content && r.searchResults == m.searchResults
    ensures InSync(r)
  {
    var c := ClearCurrentString(m);
    c.(input := c.input.(focused := false))
  }

  /** `accept` (Enter): keeps every string and only takes the focus from the input. */
  function Accept(m: Model): (r: Model)
    ensures r == m.(input := m.input.(focused := false))
    ensures InSync(r) <==> InSync(m)
    ensures InSync(m) ==> UpdateStrings(r) == r
  {
    m.(input := m.input.(focused := false))
  }

  /** `startFilter`: edits the filter, loading the stored filter string into the focused input. */
  function StartFilter(m: Model): (r: Model)
    ensures r.fieldStatus == Filter && r.input == TextInput(m.filterString, true)
    ensures r.filterString == m.filterString && r.searchString == m.searchString
    ensures r.activeMatch == m.activeMatch && r.content == m.content && r.searchResults == m.searchResults
    ensures InSync(r) && UpdateStrings(r) == r
  {
    m.(fieldStatus := Filter, input := TextInput(m.filterString, true))
  }

  /** `startSearch`: edits the search, loading the stored search string into the focused input. */
  function StartSearch(m: Model): (r: Model)
    ensures r.fieldStatus == Search && r.input == TextInput(m.searchString, true)
    ensures r.filterString == m.filterString && r.searchString == m.searchString
    ensures r.activeMatch == m.activeMatch && r.content == m.content && r.searchResults == m.searchResults
    ensures InSync(r) && UpdateStrings(r) == r
  {
    m.(fieldStatus := Search, input := TextInput(m.searchString, true))
  }

  /** `hasSearchResults`: there are results and an active match has been chosen. */
  function HasSearchResults(m: Model): (r: bool)
    ensures r ==> |m.searchResults| >= 1
    ensures r <==> m.searchResults != [] && m.activeMatch != -1
  {
    |m.searchResults| > 0 && m.activeMatch != -1
  }

  /** `max` of viewport.go. */
  function Max(a: int, b: int): (r: int)
    ensures r >= a && r >= b
    ensures r == a || r == b
  {
    if a > b then a else b
  }

  // ---------------------------------------------------------------------------
  // Navigation between search results
  // ---------------------------------------------------------------------------

  /**
   * `boundLoop`: a value below `lo` wraps to `hi`, one above `hi` wraps to
   * `lo`; the two tests run one after the other, so a value below `lo` always
   * ends at `hi`, even when `hi < lo`.
   */
  function BoundLoop(val: int, lo: int, hi: int): (r: int)
    ensures lo <= hi ==> lo <= r <= hi
    ensures lo <= val <= hi ==> r == val
    ensures val < lo ==> r == hi
    ensures lo <= val && hi < val ==> r == lo
  {
    var v := if val < lo then hi else val;
    if v > hi then lo else v
  }

  /** The active match after `n` (next match): one step down, wrapping 0 to the last result. */
  function NextIndex(active: int, n: int): (r: int)
    requires n >= 1
    ensures 0 <= r < n
    ensures 0 < active < n ==> r == active - 1
    ensures active == 0 ==> r == n - 1
    ensures active < 0 ==> r == (if n >= 2 then n - 2 else 0)
    ensures active == n ==> r == n - 1
    ensures active > n ==> r == 0
  {
    var a := if active < 0 then n - 1 else active;
    BoundLoop(a - 1, 0, n - 1)
  }

  /** The active match after `N` (previous match): one step up, wrapping the last result to 0. */
  function PreviousIndex(active: int, n: int): (r: int)
    requires n >= 1
    ensures 0 <= r < n
    ensures 0 <= active < n - 1 ==> r == active + 1
    ensures active >= n - 1 ==> r == 0
    ensures active < 0 ==> r == 0
  {
    var a := if active < 0 then n - 1 else active;
    BoundLoop(a + 1, 0, n - 1)
  }

  /** Stepping up undoes stepping down and vice versa, for an in-range pointer. */
  lemma NextPreviousInverse(active: int, n: int)
    requires 0 <= active < n
    ensures PreviousIndex(NextIndex(active, n), n) == active
    ensures NextIndex(PreviousIndex(active, n), n) == active
  {
  }

  /** `k` presses of "next match". */
  function NextIter(active: int, n: int, k: nat): (r: int)
    requires n >= 1
    ensures 0 <= r < n || (k == 0 && r == active)
  {
    if k == 0 then active else NextIndex(NextIter(active, n, k - 1), n)
  }

  /** `k` presses of "previous match". */
  function PreviousIter(active: int, n: int, k: nat): (r: int)
    requires n >= 1
    ensures 0 <= r < n || (k == 0 && r == active)
  {
    if k == 0 then active else PreviousIndex(PreviousIter(active, n, k - 1), n)
  }

  /** Pressing "next" `j + k` times is pressing it `j` times, then `k` times. */
  lemma {:induction false} NextIterSplit(active: int, n: int, j: nat, k: nat)
    requires n >= 1
    ensures NextIter(active, n, j + k) == NextIter(NextIter(active, n, j), n, k)
  {
    if k > 0 {
      NextIterSplit(active, n, j, k - 1);
    }
  }

  /** Pressing "previous" `j + k` times is pressing it `j` times, then `k` times. */
  lemma {:induction false} PreviousIterSplit(active: int, n: int, j: nat, k: nat)
    requires n >= 1
    ensures PreviousIter(active, n, j + k) == PreviousIter(PreviousIter(active, n, j), n, k)
  {
    if k > 0 {
      PreviousIterSplit(active, n, j, k - 1);
    }
  }

  /** Without wrapping, `k` presses of "next" move the pointer `k` places down. */
  lemma {:induction false} NextIterDown(active: int, n: int, k: nat)
    requires 0 <= active < n && k <= active
    ensures NextIter(active, n, k) == active - k
  {
    if k > 0 {
      NextIterDown(active, n, k - 1);
    }
  }

  /** Without wrapping, `k` presses of "previous" move the pointer `k` places up. */
  lemma {:induction false} PreviousIterUp(active: int, n: int, k: nat)
    requires 0 <= active && active + k < n
    ensures PreviousIter(active, n, k) == active + k
  {
    if k > 0 {
      PreviousIterUp(active, n, k - 1);
    }
  }

  /** `n` presses of "next" (or of "previous") from an in-range pointer come back to it. */
  lemma NavigationCycles(active: int, n: int)
    requires 0 <= active < n
    ensures NextIter(active, n, n) == active
    ensures PreviousIter(active, n, n) == active
  {
    // next: down to 0, wrap to n - 1, then down again to `active`
    NextIterSplit(active, n, active + 1, n - active - 1);
    NextIterDown(active, n, active);
    assert NextIter(active, n, active + 1) == n - 1;
    NextIterDown(n - 1, n, n - active - 1);
    // previous: up to n - 1, wrap to 0, then up again to `active`
    PreviousIterSplit(active, n, n - active, active);
    PreviousIterUp(active, n, n - active - 1);
    assert PreviousIter(active, n, n - active) == 0;
    PreviousIterUp(0, n, active);
  }

  /**
   * `getActiveMatchLine`: -1 without results; otherwise pulls the pointer into
   * range and answers the line of the active result.
   */
  method GetActiveMatchLine(m: Model) returns (r: Model, line: int)
    ensures m.searchResults == [] ==> r == m && line == -1
    ensures m.searchResults != [] ==>
      && r == m.(activeMatch := r.activeMatch)
      && 0 <= r.activeMatch < |m.searchResults|
      && line == m.searchResults[r.activeMatch].line
    ensures m.searchResults != [] && 0 <= m.activeMatch < |m.searchResults| ==> r == m
    ensures m.searchResults != [] && m.activeMatch < 0 ==> r.activeMatch == 0
    ensures m.searchResults != [] && m.activeMatch >= |m.searchResults| ==>
      r.activeMatch == |m.searchResults| - 1
  {
    r := m;
    if |r.searchResults| == 0 {
      return r, -1;
    }
    if r.activeMatch < 0 {
      r := r.(activeMatch := 0);
    } else if r.activeMatch >= |r.searchResults| {
      r := r.(activeMatch := |r.searchResults| - 1);
    }
    line := r.searchResults[r.activeMatch].line;
  }

  /** `getNextSearchMatchLine`: moves to the next match and answers its line. */
  method GetNextSearchMatchLine(m: Model) returns (r: Model, line: int)
    requires |m.searchResults| >= 1
    ensures r == m.(activeMatch := NextIndex(m.activeMatch, |m.searchResults|))
    ensures line == m.searchResults[r.activeMatch].line
  {
    r := m;
    if r.activeMatch < 0 {
      r := r.(activeMatch := |r.searchResults| - 1);
    }
    r := r.(activeMatch := r.activeMatch - 1);
    r := r.(activeMatch := BoundLoop(r.activeMatch, 0, |r.searchResults| - 1));
    line := r.searchResults[r.activeMatch].line;
  }

  /** `getPreviousMatchLine`: moves to the previous match and answers its line. */
  method GetPreviousMatchLine(m: Model) returns (r: Model, line: int)
    requires |m.searchResults| >= 1
    ensures r == m.(activeMatch := PreviousIndex(m.activeMatch, |m.searchResults|))
    ensures line == m.searchResults[r.activeMatch].line
  {
    r := m;
    if r.activeMatch < 0 {
      r := r.(activeMatch := |r.searchResults| - 1);
    }
    r := r.(activeMatch := r.activeMatch + 1);
    r := r.(activeMatch := BoundLoop(r.activeMatch, 0, |r.searchResults| - 1));
    line := r.searchResults[r.activeMatch].line;
  }

  // ---------------------------------------------------------------------------
  // Filtering
  // ---------------------------------------------------------------------------

  /** The positions of the lines that match `re`, in increasing order. */
  function MatchingIndices(eng: Engine, re: Regex, lines: seq<string>): (idx: seq<int>)
    ensures forall k :: 0 <= k < |idx| ==> 0 <= idx[k] < |lines| && Matches(eng, re, lines[idx[k]])
    ensures forall k, k' :: 0 <= k < k' < |idx| ==> idx[k] < idx[k']
    ensures forall i :: 0 <= i < |lines| && Matches(eng, re, lines[i]) ==> i in idx
  {
    if lines == [] then []
    else
      var prev := MatchingIndices(eng, re, lines[..|lines| - 1]);
      if Matches(eng, re, lines[|lines| - 1]) then prev + [|lines| - 1] else prev
  }

  /** The lines that match `re`, in their original order. */
  function KeepMatching(eng: Engine, re: Regex, lines: seq<string>): (kept: seq<string>)
    ensures |kept| == |MatchingIndices(eng, re, lines)|
    ensures forall k :: 0 <= k < |kept| ==> kept[k] == lines[MatchingIndices(eng, re, lines)[k]]
  {
    if lines == [] then []
    else
      var prev := KeepMatching(eng, re, lines[..|lines| - 1]);
      var last := lines[|lines| - 1];
      if Matches(eng, re, last) then prev + [last] else prev
  }

  /**
   * `filterContent`: with an empty or invalid filter the content passes through;
   * otherwise only the lines that match the filter remain, rejoined with newlines.
   */
  method FilterContent(m: Model, eng: Engine, content: string) returns (out: string)
    ensures m.filterString == "" || !eng.compiles(m.filterString) ==> out == content
    ensures m.filterString != "" && eng.compiles(m.filterString) ==>
      out == Join(KeepMatching(eng, Regex(m.filterString), Split(content)))
  {
    if m.filterString == "" {
      return content;
    }
    var reg := Compile(eng, m.filterString);
    if reg.None? {
      return content;
    }
    var all := Split(content);
    var lines: seq<string> := [];
    for i := 0 to |all|
      invariant lines == KeepMatching(eng, reg.value, all[..i])
    {
      assert all[..i + 1][..i] == all[..i];
      if Matches(eng, reg.value, all[i]) {
        lines := lines + [all[i]];
      }
    }
    assert all[..|all|] == all;
    out := Join(lines);
  }

  /**
   * Splitting the filtered content again (as the highlighting step does) gives
   * back exactly the kept lines, or a single empty line when none was kept.
   */
  lemma SplitFiltered(eng: Engine, re: Regex, content: string)
    ensures Split(Join(KeepMatching(eng, re, Split(content)))) ==
      var kept := KeepMatching(eng, re, Split(content));
      if kept == [] then [""] else kept
  {
    var kept := KeepMatching(eng, re, Split(content));
    if kept != [] {
      SplitJoin(kept);
    }
  }

  // ---------------------------------------------------------------------------
  // Search and highlighting
  // ---------------------------------------------------------------------------

  /** The results `FindAllStringIndex` yields on line `l`, in column order. */
  function LineMatches(eng: Engine, re: Regex, l: int, line: string): (ms: seq<SearchMatch>)
    ensures |ms| == |FindAll(eng, re, line)|
    ensures forall k :: 0 <= k < |ms| ==>
      && ms[k].line == l
      && ms[k].start == FindAll(eng, re, line)[k].start
      && ms[k].end == FindAll(eng, re, line)[k].end
      && 0 <= ms[k].start <= ms[k].end <= |line|
      && ms[k].text == line[ms[k].start..ms[k].end]
  {
    var spans := FindAll(eng, re, line);
    seq(|spans|, k requires 0 <= k < |spans| =>
      SearchMatch(line[spans[k].start..spans[k].end], l, spans[k].start, spans[k].end))
  }

  /** Every result names an existing line and the text between its bounds. */
  predicate ResultsFit(lines: seq<string>, res: seq<SearchMatch>)
  {
    forall i :: 0 <= i < |res| ==>
      && 0 <= res[i].line < |lines|
      && 0 <= res[i].start <= res[i].end <= |lines[res[i].line]|
      && res[i].text == lines[res[i].line][res[i].start..res[i].end]
  }

  /** The search results over all lines: by line, then by column. */
  function Collect(eng: Engine, re: Regex, lines: seq<string>): (res: seq<SearchMatch>)
    ensures ResultsFit(lines, res)
  {
    if lines == [] then []
    else
      var l := |lines| - 1;
      Collect(eng, re, lines[..l]) + LineMatches(eng, re, l, lines[l])
  }

  /** `a` comes strictly before `b` in reading order and does not overlap it. */
  predicate Before(a: SearchMatch, b: SearchMatch)
  {
    a.line < b.line || (a.line == b.line && a.end <= b.start)
  }

  /** Every earlier result comes before every later one. */
  predicate InReadingOrder(res: seq<SearchMatch>)
  {
    forall i, j :: 0 <= i < j < |res| ==> Before(res[i], res[j])
  }

  /** The results of one line come in column order. */
  lemma LineMatchesOrdered(eng: Engine, re: Regex, l: int, line: string)
    ensures InReadingOrder(LineMatches(eng, re, l, line))
  {
    var ms := LineMatches(eng, re, l, line);
    forall i, j | 0 <= i < j < |ms| ensures Before(ms[i], ms[j]) {
      assert FindAll(eng, re, line)[i].end <= FindAll(eng, re, line)[j].start;
    }
  }

  /** Ordered results of earlier lines followed by ordered results of line `l` stay ordered. */
  lemma ConcatOrdered(a: seq<SearchMatch>, b: seq<SearchMatch>, l: int)
    requires InReadingOrder(a) && InReadingOrder(b)
    requires forall i :: 0 <= i < |a| ==> a[i].line < l
    requires forall j :: 0 <= j < |b| ==> b[j].line == l
    ensures InReadingOrder(a + b)
  {
    var res := a + b;
    forall i, j | 0 <= i < j < |res| ensures Before(res[i], res[j]) {
      if i >= |a| {
        assert res[i] == b[i - |a|] && res[j] == b[j - |a|];
      } else if j >= |a| {
        assert res[i] == a[i] && res[j] == b[j - |a|];
      } else {
        assert res[i] == a[i] && res[j] == a[j];
      }
    }
  }

  /** Results are ordered by line, then by position within the line. */
  lemma {:induction false} CollectOrdered(eng: Engine, re: Regex, lines: seq<string>)
    ensures InReadingOrder(Collect(eng, re, lines))
  {
    if lines != [] {
      var l := |lines| - 1;
      CollectOrdered(eng, re, lines[..l]);
      LineMatchesOrdered(eng, re, l, lines[l]);
      ConcatOrdered(Collect(eng, re, lines[..l]), LineMatches(eng, re, l, lines[l]), l);
    }
  }

  /**
   * The style a result is drawn in. As written, the active style needs
   * `activeMatch > 0`, so the first result is never drawn active.
   */
  function OldStyle(active: int, i: int): (st: Style)
    ensures i <= 0 ==> st == SearchMatchStyle
    ensures i > 0 ==> (st == ActiveMatchStyle <==> i == active)
  {
    if active > 0 && active == i then ActiveMatchStyle else SearchMatchStyle
  }

  /** `line[:start] + styled + line[end:]`. */
  function Splice(line: string, start: int, end: int, styled: string): string
    requires 0 <= start <= |line| && 0 <= end <= |line|
  {
    line[..start] + styled + line[end..]
  }

  /**
   * The lines after the highlighting loop has handled `res`, in order: each
   * result rewrites its line at its ORIGINAL columns, whatever earlier results
   * on the same line have already inserted.
   */
  function Rewrite(lines: seq<string>, res: seq<SearchMatch>, active: int, render: WideningRender)
    : (out: seq<string>)
    requires ResultsFit(lines, res)
    ensures |out| == |lines|
    ensures forall l :: 0 <= l < |lines| ==> |lines[l]| <= |out[l]|
  {
    if res == [] then lines
    else
      var i := |res| - 1;
      assert ResultsFit(lines, res[..i]) by {
        forall k | 0 <= k < i ensures res[..i][k] == res[k] { }
      }
      var prev := Rewrite(lines, res[..i], active, render);
      var x := res[i];
      var styled := render(OldStyle(active, i), x.text);
      assert |x.text| == x.end - x.start;
      prev[x.line := Splice(prev[x.line], x.start, x.end, styled)]
  }

  /** A line that no result points at is left as it was. */
  lemma {:induction false} RewriteUntouched(lines: seq<string>, res: seq<SearchMatch>, active: int,
                                            render: WideningRender, l: int)
    requires ResultsFit(lines, res) && 0 <= l < |lines|
    requires forall i :: 0 <= i < |res| ==> res[i].line != l
    ensures Rewrite(lines, res, active, render)[l] == lines[l]
  {
    if res != [] {
      var i := |res| - 1;
      assert ResultsFit(lines, res[..i]) by {
        forall k | 0 <= k < i ensures res[..i][k] == res[k] { }
      }
      RewriteUntouched(lines, res[..i], active, render, l);
    }
  }

  /** A line with exactly one result `res[i]` becomes prefix, styled text, suffix. */
  lemma {:induction false} RewriteSingle(lines: seq<string>, res: seq<SearchMatch>, active: int,
                                         render: WideningRender, i: int)
    requires ResultsFit(lines, res) && 0 <= i < |res|
    requires forall j :: 0 <= j < |res| && j != i ==> res[j].line != res[i].line
    ensures var x := res[i];
      Rewrite(lines, res, active, render)[x.line] ==
        lines[x.line][..x.start] + render(OldStyle(active, i), x.text) + lines[x.line][x.end..]
  {
    var k := |res| - 1;
    assert ResultsFit(lines, res[..k]) by {
      forall t | 0 <= t < k ensures res[..k][t] == res[t] { }
    }
    if k == i {
      RewriteUntouched(lines, res[..k], active, render, res[i].line);
    } else {
      RewriteSingle(lines, res[..k], active, render, i);
    }
  }

  /** The result-gathering loop of `decorateSearch`. */
  method CollectResults(eng: Engine, re: Regex, lines: seq<string>) returns (results: seq<SearchMatch>)
    ensures results == Collect(eng, re, lines)
  {
    results := [];
    for l := 0 to |lines|
      invariant results == Collect(eng, re, lines[..l])
    {
      var locations := FindAll(eng, re, lines[l]);
      ghost var before := results;
      for j := 0 to |locations|
        invariant results == before + LineMatches(eng, re, l, lines[l])[..j]
      {
        var loc := locations[j];
        results := results + [SearchMatch(lines[l][loc.start..loc.end], l, loc.start, loc.end)];
      }
      assert LineMatches(eng, re, l, lines[l])[..|locations|] == LineMatches(eng, re, l, lines[l]);
      assert lines[..l + 1][..l] == lines[..l];
    }
    assert lines[..|lines|] == lines;
  }

  /** Handling result `i` splices its rendering into its line, at its original columns. */
  lemma RewriteStep(lines: seq<string>, res: seq<SearchMatch>, i: int, active: int, render: WideningRender)
    requires ResultsFit(lines, res) && 0 <= i < |res|
    ensures ResultsFit(lines, res[..i]) && ResultsFit(lines, res[..i + 1])
    ensures var prev := Rewrite(lines, res[..i], active, render);
      var x := res[i];
      && 0 <= x.line < |prev| && 0 <= x.start <= x.end <= |prev[x.line]|
      && Rewrite(lines, res[..i + 1], active, render)
         == prev[x.line := Splice(prev[x.line], x.start, x.end, render(OldStyle(active, i), x.text))]
  {
    var pre := res[..i + 1];
    assert pre[..i] == res[..i] && pre[i] == res[i];
    assert ResultsFit(lines, res[..i]) by {
      forall k | 0 <= k < i ensures res[..i][k] == res[k] { }
    }
    assert ResultsFit(lines, pre) by {
      forall k | 0 <= k <= i ensures pre[k] == res[k] { }
    }
  }

  /** The rewriting loop of `decorateSearch`: `lines[searchResult.line] = ...` per result. */
  method HighlightLines(lines: seq<string>, results: seq<SearchMatch>, active: int, render: WideningRender)
    returns (cur: seq<string>)
    requires ResultsFit(lines, results)
    ensures cur == Rewrite(lines, results, active, render)
  {
    cur := lines;
    assert results[..0] == [];
    for i := 0 to |results|
      invariant ResultsFit(lines, results[..i])
      invariant cur == Rewrite(lines, results[..i], active, render)
    {
      RewriteStep(lines, results, i, active, render);
      var x := results[i];
      var currentLine := cur[x.line];
      var styled := if active > 0 && active == i then render(ActiveMatchStyle, x.text)
                    else render(SearchMatchStyle, x.text);
      assert styled == render(OldStyle(active, i), x.text);
      currentLine := currentLine[..x.start] + styled + currentLine[x.end..];
      cur := cur[x.line := currentLine];
    }
    assert results[..|results|] == results;
  }

  /**
   * `decorateSearch`: computes the results of the search string over the lines
   * of `content`, fixes the active match and returns the content with every
   * result wrapped in a style. An empty search string forgets results and the
   * active match; an invalid one leaves the model and the content as they are.
   */
  method DecorateSearch(m: Model, eng: Engine, render: WideningRender, content: string)
    returns (r: Model, out: string)
    ensures m.searchString == "" ==> r == m.(activeMatch := -1, searchResults := []) && out == content
    ensures m.searchString != "" && !eng.compiles(m.searchString) ==> r == m && out == content
    ensures m.searchString != "" && eng.compiles(m.searchString) ==>
      var lines := Split(content);
      var res := Collect(eng, Regex(m.searchString), lines);
      && r == m.(searchResults := res, activeMatch := r.activeMatch)
      && (res == [] ==> r.activeMatch == -1 && out == content)
      && (res != [] && m.activeMatch == -1 ==> r.activeMatch == |res| - 1)
      && (res != [] && m.activeMatch != -1 ==> r.activeMatch == m.activeMatch)
      && (res != [] ==> out == Join(Rewrite(lines, res, r.activeMatch, render)))
  {
    if m.searchString == "" {
      return m.(activeMatch := -1, searchResults := []), content;
    }
    var reg := Compile(eng, m.searchString);
    if reg.None? {
      return m, content;
    }
    var lines := Split(content);
    var results := CollectResults(eng, reg.value, lines);
    if |results| == 0 {
      return m.(activeMatch := -1, searchResults := results), content;
    }
    var active := if m.activeMatch == -1 then |results| - 1 else m.activeMatch;
    var cur := HighlightLines(lines, results, active, render);
    r := m.(activeMatch := active, searchResults := results);
    out := Join(cur);
  }

  // ---------------------------------------------------------------------------
  // Two inputs on which the highlighting loop goes wrong
  // ---------------------------------------------------------------------------

  /** A regexp library that finds the two one-byte matches of `a` in `aa` and nothing elsewhere. */
  function TwoMatchLib(): RegexLib
  {
    RegexLib(p => true, (p, s) => s == "aa", (p, s) => if s == "aa" then [Span(0, 1), Span(1, 2)] else [])
  }

  /** The library above reports well-formed locations. */
  lemma TwoMatchLibSound()
    ensures Sound(TwoMatchLib())
  {
    forall p, s ensures WellFormedSpans(TwoMatchLib().findAll(p, s), |s|) {
      if s == "aa" {
        var spans := TwoMatchLib().findAll(p, s);
        assert spans == [Span(0, 1), Span(1, 2)];
      }
    }
  }

  /** The library above as an engine. */
  function TwoMatchEngine(): Engine
  {
    TwoMatchLibSound();
    TwoMatchLib()
  }

  /** A rendering that brackets a plain match as `<t>` and the active one as `{t}`. */
  function Brackets(): WideningRender
  {
    (st: Style, t: string) => if st == ActiveMatchStyle then "{" + t + "}" else "<" + t + ">"
  }

  /** Searching `a` in `aa` gives two results on line 0, at columns 0 and 1. */
  lemma TwoMatchResults()
    ensures Split("aa") == ["aa"]
    ensures Collect(TwoMatchEngine(), Regex("a"), ["aa"]) == [SearchMatch("a", 0, 0, 1), SearchMatch("a", 0, 1, 2)]
  {
    var lines := ["aa"];
    assert lines[..0] == [];
    assert FindAll(TwoMatchEngine(), Regex("a"), "aa") == [Span(0, 1), Span(1, 2)];
    assert "aa"[0..1] == "a" && "aa"[1..2] == "a";
    assert "aa"[1..] == "a" && "a"[1..] == "";
    assert Split("") == [""] && [""][1..] == [];
    assert ['a'] + "" == "a" && ['a'] + "a" == "aa";
    assert Split("a") == ["a"];
    assert ["a"][1..] == [];
  }

  /**
   * The second of those results, the active one, is spliced at its original
   * columns into a line the first one has already lengthened, so it lands
   * inside the first rendering instead of after it.
   */
  lemma SecondMatchMisplaced()
    ensures var res := [SearchMatch("a", 0, 0, 1), SearchMatch("a", 0, 1, 2)];
      ResultsFit(["aa"], res) && Rewrite(["aa"], res, 1, Brackets()) == ["<{a}>a"]
  {
    var lines := ["aa"];
    var res := [SearchMatch("a", 0, 0, 1), SearchMatch("a", 0, 1, 2)];
    assert "aa"[0..1] == "a" && "aa"[1..2] == "a";
    assert res[..1] == [res[0]] && res[..1][..0] == [];
    assert Brackets()(OldStyle(1, 0), "a") == "<a>";
    assert Splice("aa", 0, 1, "<a>") == "<a>a";
    assert Rewrite(lines, res[..1], 1, Brackets()) == ["<a>a"];
    assert Brackets()(OldStyle(1, 1), "a") == "{a}";
    assert Splice("<a>a", 1, 2, "{a}") == "<{a}>a";
  }

  /**
   * With exactly one result, `decorateSearch` makes it the active match
   * (`activeMatch` 0), yet it is drawn in the plain search style.
   */
  lemma SoleResultDrawnPlain(lines: seq<string>, res: seq<SearchMatch>, render: WideningRender)
    requires ResultsFit(lines, res) && |res| == 1
    ensures var x := res[0];
      Rewrite(lines, res, |res| - 1, render)[x.line]
        == lines[x.line][..x.start] + render(SearchMatchStyle, x.text) + lines[x.line][x.end..]
  {
    RewriteSingle(lines, res, 0, render, 0);
  }
}
