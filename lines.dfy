/**
 * Go's `strings.Split(s, "\n")` and `strings.Join(lines, "\n")`, which the older
 * viewer uses to go from its content string to lines and back.
 */
module Lines {

  /** `strings.Split(s, "\n")`: the pieces between newlines; `""` splits into `[""]`. */
  function Split(s: string): (lines: seq<string>)
    ensures |lines| >= 1
    ensures forall k :: 0 <= k < |lines| ==> '\n' !in lines[k]
  {
    if |s| == 0 then [""]
    else
      var rest := Split(s[1..]);
      if s[0] == '\n' then [""] + rest
      else [[s[0]] + rest[0]] + rest[1..]
  }

  /** `strings.Join(lines, "\n")`: the lines with one newline between neighbours. */
  function Join(lines: seq<string>): string
  {
    if |lines| == 0 then ""
    else if |lines| == 1 then lines[0]
    else lines[0] + "\n" + Join(lines[1..])
  }

  /** The number of newlines in `s`. */
  function Newlines(s: string): nat
  {
    if |s| == 0 then 0 else (if s[0] == '\n' then 1 else 0) + Newlines(s[1..])
  }

  /** Splitting yields one more line than there are newlines. */
  lemma {:induction false} SplitCount(s: string)
    ensures |Split(s)| == Newlines(s) + 1
  {
    if |s| > 0 {
      SplitCount(s[1..]);
    }
  }

  /** Joining the split pieces gives back the original string. */
  lemma {:induction false} JoinSplit(s: string)
    ensures Join(Split(s)) == s
  {
    if |s| > 0 {
      var rest := Split(s[1..]);
      JoinSplit(s[1..]);
      if s[0] == '\n' {
        assert Split(s) == [""] + rest;
        assert Join([""] + rest) == "" + "\n" + Join(rest) by {
          assert ([""] + rest)[1..] == rest;
        }
      } else {
        var first := [s[0]] + rest[0];
        assert Split(s) == [first] + rest[1..];
        if |rest| == 1 {
          assert Join([first]) == first;
        } else {
          assert ([first] + rest[1..])[1..] == rest[1..];
          assert Join(rest) == rest[0] + "\n" + Join(rest[1..]);
        }
      }
    }
  }

  /** Splitting joined newline-free lines gives back those lines. */
  lemma {:induction false} SplitJoin(lines: seq<string>)
    requires |lines| >= 1
    requires forall k :: 0 <= k < |lines| ==> '\n' !in lines[k]
    ensures Split(Join(lines)) == lines
  {
    if |lines| > 1 {
      SplitJoin(lines[1..]);
      SplitAtNewline(lines[0], Join(lines[1..]));
    } else {
      SplitAfterLine(lines[0], "");
      assert lines[0] + "" == lines[0];
    }
  }

  /** A newline-free head extends the first piece of whatever follows it. */
  lemma {:induction false} SplitAfterLine(head: string, tail: string)
    requires '\n' !in head
    ensures Split(head + tail) == [head + Split(tail)[0]] + Split(tail)[1..]
  {
    if |head| == 0 {
      var t := Split(tail);
      assert head + tail == tail;
      assert head + t[0] == t[0];
      assert [t[0]] + t[1..] == t;
    } else {
      var t := Split(tail);
      SplitAfterLine(head[1..], tail);
      assert (head + tail)[1..] == head[1..] + tail;
      var rest := Split(head[1..] + tail);
      assert rest == [head[1..] + t[0]] + t[1..];
      assert [head[0]] + (head[1..] + t[0]) == head + t[0];
    }
  }

  /** A newline-free line followed by a newline is the first piece on its own. */
  lemma SplitAtNewline(head: string, tail: string)
    requires '\n' !in head
    ensures Split(head + "\n" + tail) == [head] + Split(tail)
  {
    assert head + "\n" + tail == head + ("\n" + tail);
    assert ("\n" + tail)[1..] == tail;
    SplitAfterLine(head, "\n" + tail);
    assert head + "" == head;
  }
}
