/**
 * The two libraries the viewer calls into, as oracles: Go's `regexp` package and
 * lipgloss rendering. Each oracle is a record of total functions; the subset types
 * below carry the only facts the viewer relies on.
 *
 * Strings are `seq<char>` with one element per byte of the Go string, so the
 * byte offsets `regexp` reports index the sequence directly.
 */
module Oracles {
  import opened Wrappers

  /** One `[start, end]` location as returned by `FindAllStringIndex`. */
  datatype Span = Span(start: int, end: int)

  /** Every span lies within `[0, n]`. */
  predicate SpansWithin(spans: seq<Span>, n: int)
  {
    forall k :: 0 <= k < |spans| ==> 0 <= spans[k].start <= spans[k].end <= n
  }

  /** Each span ends no later than any later one starts. */
  predicate SpansOrdered(spans: seq<Span>)
  {
    forall i, j :: 0 <= i < j < |spans| ==> spans[i].end <= spans[j].start
  }

  /** What `FindAllStringIndex(s, -1)` promises about its result for a string of length `n`. */
  predicate WellFormedSpans(spans: seq<Span>, n: int)
  {
    SpansWithin(spans, n) && SpansOrdered(spans)
  }

  /**
   * The regular-expression library, indexed by pattern text: `compiles(p)` says
   * whether `regexp.Compile(p)` succeeds, `matches(p, s)` is `re.Match(s)` and
   * `findAll(p, s)` is `re.FindAllStringIndex(s, -1)`.
   */
  datatype RegexLib = RegexLib(
    compiles: string -> bool,
    matches: (string, string) -> bool,
    findAll: (string, string) -> seq<Span>)

  /** The library reports sorted, non-overlapping locations inside the searched string. */
  ghost predicate Sound(lib: RegexLib)
  {
    forall p, s :: WellFormedSpans(lib.findAll(p, s), |s|)
  }

  type Engine = lib: RegexLib | Sound(lib)
    witness RegexLib(p => false, (p, s) => false, (p, s) => [])

  /** A compiled regular expression; it remembers the pattern it was built from. */
  datatype Regex = Regex(pattern: string)

  /** `regexp.Compile`: `None` stands for the non-nil error of an invalid pattern. */
  function Compile(eng: Engine, pattern: string): (r: Option<Regex>)
    ensures r.Some? <==> eng.compiles(pattern)
    ensures r.Some? ==> r.value.pattern == pattern
  {
    if eng.compiles(pattern) then Some(Regex(pattern)) else None
  }

  /** `re.Match([]byte(s))`. */
  function Matches(eng: Engine, re: Regex, s: string): bool
  {
    eng.matches(re.pattern, s)
  }

  /** `re.FindAllStringIndex(s, -1)`. */
  function FindAll(eng: Engine, re: Regex, s: string): (spans: seq<Span>)
    ensures WellFormedSpans(spans, |s|)
  {
    eng.findAll(re.pattern, s)
  }

  /** The two lipgloss styles the viewer uses for search hits. */
  datatype Style = SearchMatchStyle | ActiveMatchStyle

  /** `style.Render(text)` for either style. */
  type Render = (Style, string) -> string

  /** lipgloss only adds escape sequences (or expands tabs): rendering never shortens text. */
  ghost predicate Widening(render: Render)
  {
    forall st, t :: |t| <= |render(st, t)|
  }

  type WideningRender = render: Render | Widening(render)
    witness (st: Style, t: string) => t
}
