/** cmd_helper.py: lines of a command's output, from the chunks in which it arrives. */
module OutputLines {
  import opened Sequences

  predicate IsBreak(c: char) {
    c == '\n' || c == '\r'
  }

  /** Where the first line of s ends, its line break not counted. */
  function LineEnd(s: string): (k: nat)
    ensures k <= |s| && (forall c <- s[..k] :: !IsBreak(c)) && (k < |s| ==> IsBreak(s[k]))
  {
    if s == "" || IsBreak(s[0]) then 0 else 1 + LineEnd(s[1..])
  }

  /** Where the second line of s starts. */
  function NextLine(s: string): (k: nat)
    requires s != ""
    ensures 0 < k <= |s|
  {
    var k := LineEnd(s);
    if k == |s| then k
    else if s[k] == '\r' && k + 1 < |s| && s[k + 1] == '\n' then k + 2
    else k + 1
  }

  /** str.splitlines */
  function SplitLines(s: string): seq<string>
    decreases |s|
  {
    if s == "" then [] else [s[..LineEnd(s)]] + SplitLines(s[NextLine(s)..])
  }

  predicate EndsInBreak(s: string) {
    s != "" && IsBreak(s[|s| - 1])
  }

  predicate EndsInReturn(s: string) {
    s != "" && s[|s| - 1] == '\r'
  }

  predicate StartsWithNewline(s: string) {
    s != "" && s[0] == '\n'
  }

  function Concat(chunks: seq<string>): string {
    if chunks == [] then "" else Concat(chunks[..|chunks| - 1]) + chunks[|chunks| - 1]
  }

  /** How many cuts between chunks fall between '\r' and '\n'. */
  function BadCuts(chunks: seq<string>): nat {
    if chunks == [] then 0
    else
      var front, last := chunks[..|chunks| - 1], chunks[|chunks| - 1];
      BadCuts(front) + if IsBadCut(Concat(front), last) then 1 else 0
  }

  // ----------------------------------------------------------- cutting in two

  lemma {:induction false} LineEndFront(a: string, b: string)
    requires LineEnd(a) < |a|
    ensures LineEnd(a + b) == LineEnd(a)
    decreases |a|
  {
    if !IsBreak(a[0]) {
      assert (a + b)[1..] == a[1..] + b;
      LineEndFront(a[1..], b);
    }
  }

  /** Whether the cut between a and b falls between '\r' and '\n'. */
  predicate IsBadCut(a: string, b: string) {
    EndsInReturn(a) && StartsWithNewline(b)
  }

  lemma {:induction false} BreakEnds(s: string, i: nat)
    requires i < |s| && IsBreak(s[i])
    ensures LineEnd(s) <= i
    decreases i
  {
    if !IsBreak(s[0]) {
      BreakEnds(s[1..], i - 1);
    }
  }

  lemma NextLineFront(a: string, b: string)
    requires EndsInBreak(a)
    ensures LineEnd(a) < |a| && LineEnd(a + b) == LineEnd(a)
    ensures NextLine(a + b) == if NextLine(a) == |a| && IsBadCut(a, b) then |a| + 1 else NextLine(a)
  {
    BreakEnds(a, |a| - 1);
    LineEndFront(a, b);
  }

  /** What remains of b when its first character may belong to the break before it. */
  function Rest(a: string, b: string): string {
    if IsBadCut(a, b) then b[1..] else b
  }

  function First(s: string): string
    requires s != ""
  {
    s[..LineEnd(s)]
  }

  function After(s: string): string
    requires s != ""
  {
    s[NextLine(s)..]
  }

  lemma SplitUnfold(s: string)
    requires s != ""
    ensures SplitLines(s) == [First(s)] + SplitLines(After(s))
  {
  }

  lemma FirstAndAfter(a: string, b: string)
    requires EndsInBreak(a)
    ensures First(a + b) == First(a)
    ensures After(a) == "" ==> After(a + b) == Rest(a, b)
    ensures After(a) != "" ==> EndsInBreak(After(a)) && After(a + b) == After(a) + b && Rest(After(a), b) == Rest(a, b)
  {
    NextLineFront(a, b);
  }

  /** Text that ends in a line break can be split apart from what follows it,
      but for a newline cut off from its carriage return. */
  lemma {:induction false} SplitAtBreak(a: string, b: string)
    requires EndsInBreak(a)
    ensures SplitLines(a + b) == SplitLines(a) + SplitLines(Rest(a, b))
    decreases |a|
  {
    FirstAndAfter(a, b);
    SplitUnfold(a);
    SplitUnfold(a + b);
    if After(a) == "" {
    } else {
      SplitAtBreak(After(a), b);
      Associate([First(a)], SplitLines(After(a)), SplitLines(Rest(a, b)));
    }
  }

  /** A newline that was cut off is one empty line more. */
  lemma SplitNewline(b: string)
    requires StartsWithNewline(b)
    ensures SplitLines(b) == [""] + SplitLines(b[1..])
  {
  }

  // -------------------------------------------------------------- line by line

  /** Where the incomplete line at the end of s starts. */
  ghost function Complete(s: string): (k: nat)
    ensures k <= |s| && (k > 0 ==> IsBreak(s[k - 1])) && forall c <- s[k..] :: !IsBreak(c)
    ensures k == |s| <==> s == "" || IsBreak(s[|s| - 1])
  {
    if s == "" || IsBreak(s[|s| - 1]) then |s|
    else
      var k := Complete(s[..|s| - 1]);
      assert s[k..] == s[..|s| - 1][k..] + [s[|s| - 1]];
      k
  }

  lemma {:induction false} NoBreakOneLine(s: string)
    requires s != "" && forall c <- s :: !IsBreak(c)
    ensures SplitLines(s) == [s]
  {
    forall i | 0 <= i < |s|
      ensures !IsBreak(s[i])
    {
      assert s[i] in s;
    }
    assert s[..|s|] == s && s[|s|..] == "";
  }

  lemma SplitLastOf(front: string, last: string)
    requires front != "" ==> EndsInBreak(front)
    requires last != "" && forall c <- last :: !IsBreak(c)
    ensures SplitLines(front + last) == SplitLines(front) + [last]
  {
    NoBreakOneLine(last);
    if front != "" {
      assert last[0] in last;
      SplitAtBreak(front, last);
    } else {
      assert front + last == last;
    }
  }

  /** All text so far is whole lines and the text kept back. The lines yielded
      are those of the whole lines, and one more for each bad cut. */
  ghost predicate Progress(text: string, whole: string, kept: string, bad: nat, yielded: seq<string>) {
    text == whole + kept && (whole != "" ==> EndsInBreak(whole)) && (forall c <- kept :: !IsBreak(c)) &&
    |yielded| == |SplitLines(whole)| + bad &&
    (bad == 0 ==> yielded == SplitLines(whole))
  }

  /** A cut before more text is bad just when it is before the more whole lines. */
  lemma SameCut(whole: string, kept: string, data: string, more: string, kept': string)
    requires whole != "" ==> EndsInBreak(whole)
    requires (forall c <- kept :: !IsBreak(c)) && forall c <- kept' :: !IsBreak(c)
    requires data != "" && kept + data == more + kept'
    ensures IsBadCut(whole + kept, data) == IsBadCut(whole, more)
  {
    if kept != "" {
      assert (whole + kept)[|whole + kept| - 1] == kept[|kept| - 1] && kept[|kept| - 1] in kept;
      assert more != "" ==> more[0] == (kept + data)[0] == kept[0] && kept[0] in kept;
    } else {
      assert whole + kept == whole && kept + data == data;
      if more == "" {
        assert data[0] in kept';
      } else {
        assert more[0] == data[0];
      }
    }
  }

  lemma MoreLines(whole: string, more: string)
    requires whole != "" ==> EndsInBreak(whole)
    ensures if IsBadCut(whole, more) then [""] + SplitLines(Rest(whole, more)) == SplitLines(more)
      else SplitLines(whole + more) == SplitLines(whole) + SplitLines(more)
    ensures IsBadCut(whole, more) ==> SplitLines(whole + more) == SplitLines(whole) + SplitLines(Rest(whole, more))
  {
    if whole == "" {
      assert whole + more == more;
      assert SplitLines("") + SplitLines(more) == SplitLines(more);
    } else {
      SplitAtBreak(whole, more);
      if IsBadCut(whole, more) {
        SplitNewline(more);
      }
    }
  }

  lemma ProgressMore(text: string, whole: string, kept: string, bad: nat, yielded: seq<string>,
                     data: string, more: string, kept': string)
    requires Progress(text, whole, kept, bad, yielded) && data != ""
    requires kept + data == more + kept' && (more != "" ==> EndsInBreak(more)) && forall c <- kept' :: !IsBreak(c)
    ensures Progress(text + data, whole + more, kept', bad + if IsBadCut(text, data) then 1 else 0, yielded + SplitLines(more))
  {
    SameCut(whole, kept, data, more, kept');
    TextMore(whole, kept, data, more, kept');
    CountMore(whole, more, bad, yielded);
  }

  lemma TextMore(whole: string, kept: string, data: string, more: string, kept': string)
    requires whole != "" ==> EndsInBreak(whole)
    requires kept + data == more + kept' && (more != "" ==> EndsInBreak(more))
    ensures (whole + kept) + data == (whole + more) + kept'
    ensures whole + more != "" ==> EndsInBreak(whole + more)
  {
    Associate(whole, kept, data);
    Associate(whole, more, kept');
    if more == "" {
      assert whole + more == whole;
    } else {
      assert (whole + more)[|whole + more| - 1] == more[|more| - 1];
    }
  }

  lemma CountMore(whole: string, more: string, bad: nat, yielded: seq<string>)
    requires whole != "" ==> EndsInBreak(whole)
    requires |yielded| == |SplitLines(whole)| + bad && (bad == 0 ==> yielded == SplitLines(whole))
    ensures |yielded + SplitLines(more)| == |SplitLines(whole + more)| + bad + if IsBadCut(whole, more) then 1 else 0
    ensures bad == 0 && !IsBadCut(whole, more) ==> yielded + SplitLines(more) == SplitLines(whole + more)
  {
    MoreLines(whole, more);
  }

  /** The lines to yield from the text at hand, and the text to keep back. */
  method TakeLines(buffer: string) returns (lines: seq<string>, kept: string, ghost more: string)
    requires buffer != ""
    ensures buffer == more + kept && (more != "" ==> EndsInBreak(more)) && (forall c <- kept :: !IsBreak(c))
    ensures lines == SplitLines(more)
  {
    var hasIncompleteLine := !IsBreak(buffer[|buffer| - 1]);
    lines, kept, more := SplitLines(buffer), "", buffer[..Complete(buffer)];
    if hasIncompleteLine {
      assert more + buffer[Complete(buffer)..] == buffer;
      SplitLastOf(more, buffer[Complete(buffer)..]);
      kept := lines[|lines| - 1];
      lines := lines[..|lines| - 1];
    } else {
      assert more == buffer == buffer + "";
    }
  }

  /** The generator without iter_timeout: one line at a time, from chunks that
      are not empty. It yields the lines of the whole output exactly when no cut
      falls between '\r' and '\n', and one line too many for each that does. */
  method IterCmdOutputLines(chunks: seq<string>) returns (yielded: seq<string>)
    requires forall chunk <- chunks :: chunk != ""
    ensures |yielded| == |SplitLines(Concat(chunks))| + BadCuts(chunks)
    ensures yielded == SplitLines(Concat(chunks)) <==> BadCuts(chunks) == 0
  {
    yielded := [];
    var bufferOutput := "";
    ghost var whole := "";
    for i := 0 to |chunks|
      invariant Progress(Concat(chunks[..i]), whole, bufferOutput, BadCuts(chunks[..i]), yielded)
    {
      assert chunks[..i + 1][..i] == chunks[..i];
      var data := chunks[i];
      assert data in chunks;
      var lines, kept, more := TakeLines(bufferOutput + data);
      ProgressMore(Concat(chunks[..i]), whole, bufferOutput, BadCuts(chunks[..i]), yielded, data, more, kept);
      yielded, bufferOutput, whole := yielded + lines, kept, whole + more;
    }
    assert chunks[..|chunks|] == chunks;
    if bufferOutput != "" {
      SplitLastOf(whole, bufferOutput);
      yielded := yielded + [bufferOutput];
    } else {
      assert whole + bufferOutput == whole;
    }
  }
}
