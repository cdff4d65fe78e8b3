/** cmd_helper.py: shell quoting and ShrinkToSnippet, against a small shell. */
module ShellSnippet {
  import opened Sequences
  import opened Wrappers

  // ------------------------------------------------------------------ quoting

  /** Characters that pipes.quote leaves alone. */
  predicate IsSafe(c: char) {
    'a' <= c <= 'z' || 'A' <= c <= 'Z' || '0' <= c <= '9' || c in "@%_-+=:,./"
  }

  /** Each single quote becomes '"'"' */
  function EscapeQuotes(s: string): string {
    if s == "" then "" else EscapeQuotes(s[..|s| - 1]) + if s[|s| - 1] == '\'' then "'\"'\"'" else [s[|s| - 1]]
  }

  function SingleQuote(s: string): string {
    if s == "" then "''"
    else if forall c <- s :: IsSafe(c) then s
    else "'" + EscapeQuotes(s) + "'"
  }

  lemma {:induction false} EscapeLonger(s: string)
    ensures |EscapeQuotes(s)| >= |s|
    decreases |s|
  {
    if s == "" {
    } else {
      EscapeLonger(s[..|s| - 1]);
    }
  }

  /** Quotes are put exactly where some character needs them, or there is none. */
  lemma QuotedExactly(s: string)
    ensures SingleQuote(s) == s <==>
      s != "" && forall i :: 0 <= i < |s| ==>
        'a' <= s[i] <= 'z' || 'A' <= s[i] <= 'Z' || '0' <= s[i] <= '9' || s[i] in "@%_-+=:,./"
  {
    EscapeLonger(s);
    assert forall i :: 0 <= i < |s| ==> s[i] in s;
  }

  // ---------------------------------------------------------------- splitting

  predicate StartsAt(s: string, i: nat, sep: string) {
    i + |sep| <= |s| && s[i..i + |sep|] == sep
  }

  /** Where sep is first found in s from i on, or the length of s. */
  function FindFrom(s: string, i: nat, sep: string): (k: nat)
    requires i <= |s|
    ensures i <= k <= |s|
    ensures k < |s| ==> StartsAt(s, k, sep)
    ensures forall j :: i <= j < k ==> !StartsAt(s, j, sep)
    decreases |s| - i
  {
    if i == |s| then i else if StartsAt(s, i, sep) then i else FindFrom(s, i + 1, sep)
  }

  /** str.split with a separator: the parts between the leftmost separate
      occurrences of sep. */
  function Split(s: string, sep: string): (r: seq<string>)
    requires sep != ""
    ensures |r| > 0
    decreases |s|
  {
    var k := FindFrom(s, 0, sep);
    if k == |s| then [s] else [s[..k]] + Split(s[k + |sep|..], sep)
  }

  function Join(parts: seq<string>, sep: string): string
    requires |parts| > 0
  {
    if |parts| == 1 then parts[0] else parts[0] + sep + Join(parts[1..], sep)
  }

  lemma FoundAt(s: string, k: nat, sep: string)
    requires StartsAt(s, k, sep)
    ensures s == s[..k] + sep + s[k + |sep|..]
  {
    assert s == s[..k] + s[k..k + |sep|] + s[k + |sep|..];
  }

  lemma {:induction false} SplitThenJoin(s: string, sep: string)
    requires sep != ""
    ensures Join(Split(s, sep), sep) == s
    decreases |s|
  {
    var k := FindFrom(s, 0, sep);
    if k == |s| {
    } else {
      SplitThenJoin(s[k + |sep|..], sep);
      FoundAt(s, k, sep);
    }
  }

  /** sep is in a text ended by sep nowhere but there. */
  ghost predicate EndsFirst(part: string, sep: string) {
    forall a: string, b: string :: part + sep == a + sep + b ==> b == ""
  }

  ghost predicate Without(part: string, sep: string) {
    forall a: string, b: string :: part != a + sep + b
  }

  /** Each separator is the leftmost one after the separator before it, and the
      last part has none. */
  ghost predicate Leftmost(parts: seq<string>, sep: string) {
    forall i :: 0 <= i < |parts| ==> if i < |parts| - 1 then EndsFirst(parts[i], sep) else Without(parts[i], sep)
  }

  lemma PrefixStarts(s: string, end: nat, a: string, sep: string, b: string)
    requires end <= |s| && s[..end] == a + sep + b
    ensures StartsAt(s, |a|, sep)
  {
    assert s[..end][|a|..|a| + |sep|] == sep;
  }

  lemma FirstEndsFirst(s: string, k: nat, sep: string)
    requires StartsAt(s, k, sep) && forall j :: 0 <= j < k ==> !StartsAt(s, j, sep)
    ensures EndsFirst(s[..k], sep)
  {
    forall a: string, b: string | s[..k] + sep == a + sep + b
      ensures b == ""
    {
      assert s[..k + |sep|] == s[..k] + sep;
      PrefixStarts(s, k + |sep|, a, sep, b);
    }
  }

  lemma NoneIsWithout(s: string, sep: string)
    requires forall j :: 0 <= j < |s| ==> !StartsAt(s, j, sep)
    requires sep != ""
    ensures Without(s, sep)
  {
    forall a: string, b: string
      ensures s != a + sep + b
    {
      if s == a + sep + b {
        assert s[..|s|] == s;
        PrefixStarts(s, |s|, a, sep, b);
        assert false;
      }
    }
  }

  lemma {:induction false} SplitLeftmost(s: string, sep: string)
    requires sep != ""
    ensures Leftmost(Split(s, sep), sep)
    decreases |s|
  {
    var k := FindFrom(s, 0, sep);
    if k == |s| {
      NoneIsWithout(s, sep);
    } else {
      var rest := Split(s[k + |sep|..], sep);
      FirstEndsFirst(s, k, sep);
      SplitLeftmost(s[k + |sep|..], sep);
      assert forall i :: 0 < i <= |rest| ==> ([s[..k]] + rest)[i] == rest[i - 1];
    }
  }

  lemma StartsLater(s: string, rest: string, i: nat, sep: string)
    requires i + |sep| <= |s|
    ensures StartsAt(s + rest, i, sep) <==> StartsAt(s, i, sep)
  {
    assert (s + rest)[i..i + |sep|] == s[i..i + |sep|];
  }

  lemma FoundAtEnd(first: string, k: nat, sep: string)
    requires EndsFirst(first, sep) && StartsAt(first + sep, k, sep)
    ensures k == |first|
  {
    FoundAt(first + sep, k, sep);
  }

  lemma FirstPartFound(first: string, rest: string, sep: string)
    requires EndsFirst(first, sep) && sep != ""
    ensures FindFrom(first + sep + rest, 0, sep) == |first|
  {
    var end := first + sep;
    var k := FindFrom(end + rest, 0, sep);
    StartsLater(end, rest, |first|, sep);
    StartsLater(end, rest, k, sep);
    FoundAtEnd(first, k, sep);
  }

  lemma WithoutFindsNone(s: string, sep: string)
    requires Without(s, sep) && sep != ""
    ensures FindFrom(s, 0, sep) == |s|
  {
    var k := FindFrom(s, 0, sep);
    if k < |s| {
      FoundAt(s, k, sep);
    }
  }

  lemma {:induction false} SplitOfJoin(parts: seq<string>, sep: string)
    requires parts != [] && Leftmost(parts, sep) && sep != ""
    ensures Split(Join(parts, sep), sep) == parts
    decreases |parts|
  {
    if |parts| == 1 {
      assert Without(parts[0], sep);
      WithoutFindsNone(parts[0], sep);
      OneMore(parts, 0);
    } else {
      var first, rest := parts[0], Join(parts[1..], sep);
      assert EndsFirst(first, sep);
      FirstPartFound(first, rest, sep);
      var s := Join(parts, sep);
      assert s[..|first|] == first && s[|first| + |sep|..] == rest;
      SplitOfJoin(parts[1..], sep);
      assert [first] + parts[1..] == parts;
    }
  }

  /** The parts of a text are the one way to cut it at separators taken from the
      left that leaves none. */
  lemma SplitExactly(s: string, sep: string, parts: seq<string>)
    requires sep != ""
    ensures parts == Split(s, sep) <==> parts != [] && Join(parts, sep) == s && Leftmost(parts, sep)
  {
    SplitThenJoin(s, sep);
    SplitLeftmost(s, sep);
    if parts != [] && Join(parts, sep) == s && Leftmost(parts, sep) {
      SplitOfJoin(parts, sep);
    }
  }

  // ---------------------------------------------------------------- shrinking

  function Variable(name: string): string {
    "\"$" + name + "\""
  }

  function QuotePart(s: string): string {
    if s == "" then "" else SingleQuote(s)
  }

  /** Quotes nonempty parts only. */
  function QuoteParts(parts: seq<string>): (r: seq<string>)
    ensures |r| == |parts|
  {
    if parts == [] then []
    else [QuotePart(parts[0])] + QuoteParts(parts[1..])
  }

  /** What the parts of a text look like when they are joined by the variable. */
  function Parts(part: string, name: string, value: string): string
    requires value != ""
  {
    Join(QuoteParts(Split(part, value)), Variable(name))
  }

  function Shrink(part: string, name: string, value: string): string
    requires value != ""
  {
    var shrunk := Parts(part, name, value);
    if shrunk == "" then "''" else shrunk
  }

  function Shrunk(parts: seq<string>, name: string, value: string): string
    requires value != ""
  {
    if parts == [] then ""
    else if |parts| == 1 then Shrink(parts[0], name, value)
    else Shrunk(parts[..|parts| - 1], name, value) + " " + Shrink(parts[|parts| - 1], name, value)
  }

  /** None is the ValueError that splitting by an empty separator raises. */
  function ShrinkToSnippet(parts: seq<string>, name: string, value: string): (r: Option<string>)
    ensures r.None? <==> parts != [] && value == ""
  {
    if parts == [] then Some("") else if value == "" then None else Some(Shrunk(parts, name, value))
  }

  // ---------------------------------------------------------------- the shell

  predicate IsNameStart(c: char) {
    'a' <= c <= 'z' || 'A' <= c <= 'Z' || c == '_'
  }

  predicate IsNameChar(c: char) {
    IsNameStart(c) || '0' <= c <= '9'
  }

  predicate IsName(s: string) {
    s != "" && IsNameStart(s[0]) && forall c <- s :: IsNameChar(c)
  }

  /** Characters that stand for themselves outside quotes in an argument (section
      2.2 of the Shell Command Language; '=' and '%' are special elsewhere). */
  predicate IsLiteral(c: char) {
    ' ' < c && c !in "|&;<>()$`\\\"'*?[#~"
  }

  type Variables = map<string, string>

  datatype Mode = Plain | Single | Double | InName(name: string)

  /** A shell that splits and expands words: unquoted literal characters,
      single quotes, and double quotes with parameters by name (sections 2.2.2,
      2.2.3 and 2.6 of the Shell Command Language). Any other use of a
      character with a meaning to the shell makes it stop. */
  datatype Shell = Stopped | Shell(words: seq<string>, word: Option<string>, mode: Mode)

  function Plus(word: Option<string>, s: string): Option<string> {
    Some((if word.None? then "" else word.value) + s)
  }

  function InDouble(sh: Shell, c: char): Shell
    requires sh.Shell?
  {
    if c == '"' then sh.(mode := Plain)
    else if c == '$' then sh.(mode := InName(""))
    else if c in "`\\" then Stopped
    else sh.(word := Plus(sh.word, [c]), mode := Double)
  }

  function Read(sh: Shell, c: char, vars: Variables): Shell {
    if sh.Stopped? then sh else
    match sh.mode
    case Plain =>
      if c == ' ' then
        if sh.word.Some? then Shell(sh.words + [sh.word.value], None, Plain) else sh
      else if c == '\'' then sh.(word := Plus(sh.word, ""), mode := Single)
      else if c == '"' then sh.(word := Plus(sh.word, ""), mode := Double)
      else if IsLiteral(c) then sh.(word := Plus(sh.word, [c]))
      else Stopped
    case Single => if c == '\'' then sh.(mode := Plain) else sh.(word := Plus(sh.word, [c]))
    case Double => InDouble(sh, c)
    case InName(name) =>
      if IsNameStart(c) || (name != "" && IsNameChar(c)) then sh.(mode := InName(name + [c]))
      else if name == "" then Stopped
      else InDouble(sh.(word := Plus(sh.word, if name in vars then vars[name] else "")), c)
  }

  function ReadAll(sh: Shell, text: string, vars: Variables): Shell
    decreases |text|
  {
    if text == "" then sh else Read(ReadAll(sh, text[..|text| - 1], vars), text[|text| - 1], vars)
  }

  /** The words that a line stands for. */
  function Words(text: string, vars: Variables): Option<seq<string>> {
    var sh := ReadAll(Shell([], None, Plain), text, vars);
    if sh.Stopped? || !sh.mode.Plain? then None
    else Some(if sh.word.Some? then sh.words + [sh.word.value] else sh.words)
  }

  // ------------------------------------------------------------------- meaning

  lemma {:induction false} ReadConcat(sh: Shell, a: string, b: string, vars: Variables)
    ensures ReadAll(sh, a + b, vars) == ReadAll(ReadAll(sh, a, vars), b, vars)
    decreases |b|
  {
    if b == "" {
      assert a + b == a;
    } else {
      assert (a + b)[..|a + b| - 1] == a + b[..|b| - 1];
      ReadConcat(sh, a, b[..|b| - 1], vars);
    }
  }

  lemma ReadOne(sh: Shell, c: char, vars: Variables)
    ensures ReadAll(sh, [c], vars) == Read(sh, c, vars)
  {
    assert [c][..0] == "";
  }

  lemma PlusTwice(word: Option<string>, a: string, b: string)
    ensures Plus(Plus(word, a), b) == Plus(word, a + b)
    ensures word.Some? ==> Plus(word, "") == word
  {
    var w := if word.None? then "" else word.value;
    assert (w + a) + b == w + (a + b);
    assert w + "" == w;
  }

  /** The shell after text that stands for s has been read as part of a word. */
  function Grown(sh: Shell, s: string): (r: Shell)
    requires sh.Shell?
    ensures r.Shell?
  {
    sh.(word := Plus(sh.word, s))
  }

  lemma SafeIsLiteral(c: char)
    requires IsSafe(c)
    ensures IsLiteral(c)
  {
  }

  lemma ReadSafeChar(sh: Shell, c: char, vars: Variables)
    requires sh.Shell? && sh.mode.Plain? && IsSafe(c)
    ensures ReadAll(sh, [c], vars) == Grown(sh, [c])
  {
    SafeIsLiteral(c);
    ReadOne(sh, c, vars);
  }

  lemma {:induction false} ReadSafe(sh: Shell, s: string, vars: Variables)
    requires sh.Shell? && sh.mode.Plain? && s != "" && forall i :: 0 <= i < |s| ==> IsSafe(s[i])
    ensures ReadAll(sh, s, vars) == Grown(sh, s)
    decreases |s|
  {
    var last := s[|s| - 1];
    OneMore(s, |s| - 1);
    if |s| == 1 {
      ReadSafeChar(sh, last, vars);
    } else {
      var front := s[..|s| - 1];
      ReadSafe(sh, front, vars);
      ReadSafeChar(Grown(sh, front), last, vars);
      ReadConcat(sh, front, [last], vars);
      PlusTwice(sh.word, front, [last]);
    }
  }

  lemma ReadEscapedChar(sh: Shell, c: char, vars: Variables)
    requires sh.Shell? && sh.mode.Single? && sh.word.Some?
    ensures ReadAll(sh, if c == '\'' then "'\"'\"'" else [c], vars) == Grown(sh, [c])
  {
    if c == '\'' {
      var closed := Shell(sh.words, sh.word, Plain);
      var quoted := Shell(sh.words, sh.word, Double);
      var done := Shell(sh.words, Plus(sh.word, "'"), Double);
      PlusTwice(sh.word, "", "'");
      PlusTwice(done.word, "", "");
      ReadOne(sh, '\'', vars);
      ReadOne(closed, '"', vars);
      ReadOne(quoted, '\'', vars);
      ReadOne(done, '"', vars);
      ReadOne(done.(mode := Plain), '\'', vars);
      ReadConcat(sh, "'", "\"", vars);
      ReadConcat(sh, "'" + "\"", "'", vars);
      ReadConcat(sh, "'" + "\"" + "'", "\"", vars);
      ReadConcat(sh, "'" + "\"" + "'" + "\"", "'", vars);
      assert "'" + "\"" + "'" + "\"" + "'" == "'\"'\"'" && [c] == "'";
    } else {
      ReadOne(sh, c, vars);
    }
  }

  lemma {:induction false} ReadEscaped(sh: Shell, s: string, vars: Variables)
    requires sh.Shell? && sh.mode.Single? && sh.word.Some?
    ensures ReadAll(sh, EscapeQuotes(s), vars) == Grown(sh, s)
    decreases |s|
  {
    if s == "" {
      PlusTwice(sh.word, "", "");
    } else {
      var front, last := s[..|s| - 1], s[|s| - 1];
      ReadEscaped(sh, front, vars);
      ReadConcat(sh, EscapeQuotes(front), if last == '\'' then "'\"'\"'" else [last], vars);
      ReadEscapedChar(Grown(sh, front), last, vars);
      PlusTwice(sh.word, front, [last]);
      OneMore(s, |s| - 1);
    }
  }

  lemma ReadQuoted(sh: Shell, s: string, vars: Variables)
    requires sh.Shell? && sh.mode.Plain?
    ensures ReadAll(sh, SingleQuote(s), vars) == Grown(sh, s)
  {
    var open := Shell(sh.words, Plus(sh.word, ""), Single);
    ReadOne(sh, '\'', vars);
    PlusTwice(sh.word, "", s);
    assert "" + s == s;
    if s == "" {
      ReadConcat(sh, "'", "'", vars);
      ReadOne(open, '\'', vars);
      assert "'" + "'" == "''";
    } else if forall c <- s :: IsSafe(c) {
      ReadSafe(sh, s, vars);
    } else {
      ReadEscaped(open, s, vars);
      ReadConcat(sh, "'", EscapeQuotes(s), vars);
      ReadConcat(sh, "'" + EscapeQuotes(s), "'", vars);
      ReadOne(Grown(open, s), '\'', vars);
    }
  }

  lemma {:induction false} ReadName(sh: Shell, done: string, name: string, vars: Variables)
    requires sh.Shell? && sh.mode == InName(done) && IsName(done + name)
    ensures ReadAll(sh, name, vars) == sh.(mode := InName(done + name))
    decreases |name|
  {
    if name == "" {
      assert done + name == done;
    } else {
      var front, last := name[..|name| - 1], name[|name| - 1];
      assert (done + name)[|done + name| - 1] == last;
      assert done + name == (done + front) + [last];
      if done + front != "" {
        assert (done + front)[0] == (done + name)[0];
        assert forall c <- done + front :: c in done + name;
        ReadName(sh, done, front, vars);
      } else {
        assert front == "" && done + front == done;
      }
    }
  }

  /** The parameter stands for its value, in the middle of a word. */
  lemma ReadVariable(sh: Shell, name: string, value: string, vars: Variables)
    requires sh.Shell? && sh.mode.Plain? && IsName(name) && name in vars && vars[name] == value
    ensures ReadAll(sh, Variable(name), vars) == Grown(sh, value)
  {
    var open := Shell(sh.words, Plus(sh.word, ""), Double);
    ReadOne(sh, '"', vars);
    ReadConcat(sh, "\"", "$", vars);
    ReadOne(open, '$', vars);
    assert "\"" + "$" == "\"$";
    ReadConcat(sh, "\"$", name, vars);
    assert "" + name == name;
    ReadName(open.(mode := InName("")), "", name, vars);
    ReadConcat(sh, "\"$" + name, "\"", vars);
    ReadOne(open.(mode := InName(name)), '"', vars);
    PlusTwice(sh.word, "", value);
    assert "" + value == value;
  }

  lemma QuotedJoin(first: string, rest: seq<string>, sep: string)
    requires rest != []
    ensures Join(QuoteParts([first] + rest), sep) == QuotePart(first) + sep + Join(QuoteParts(rest), sep)
  {
    assert ([first] + rest)[1..] == rest;
    assert ([QuotePart(first)] + QuoteParts(rest))[1..] == QuoteParts(rest);
  }

  lemma PartsUnfold(part: string, name: string, value: string)
    requires value != ""
    ensures var k := FindFrom(part, 0, value);
      if k == |part| then Parts(part, name, value) == QuotePart(part)
      else part == part[..k] + value + part[k + |value|..] &&
           Parts(part, name, value) == QuotePart(part[..k]) + Variable(name) + Parts(part[k + |value|..], name, value)
  {
    var k := FindFrom(part, 0, value);
    if k == |part| {
      assert QuoteParts([part]) == [QuotePart(part)];
    } else {
      FoundAt(part, k, value);
      QuotedJoin(part[..k], Split(part[k + |value|..], value), Variable(name));
    }
  }

  /** The text with now in all places where value is. */
  function Filled(part: string, value: string, now: string): string
    requires value != ""
  {
    Join(Split(part, value), now)
  }

  lemma FilledUnfold(part: string, value: string, now: string)
    requires value != ""
    ensures var k := FindFrom(part, 0, value);
      Filled(part, value, now) == if k == |part| then part else part[..k] + now + Filled(part[k + |value|..], value, now)
  {
  }

  /** The joined parts stand for the text that was split, with what the variable is
      bound to in the place of the value. */
  lemma {:induction false} ReadParts(sh: Shell, part: string, name: string, value: string, now: string, vars: Variables)
    requires sh.Shell? && sh.mode.Plain? && IsName(name) && name in vars && vars[name] == now && value != ""
    ensures var text := Parts(part, name, value);
      if text == "" then Filled(part, value, now) == "" else ReadAll(sh, text, vars) == Grown(sh, Filled(part, value, now))
    decreases |part|
  {
    var k := FindFrom(part, 0, value);
    PartsUnfold(part, name, value);
    FilledUnfold(part, value, now);
    if k == |part| {
      if part != "" {
        ReadQuoted(sh, part, vars);
      }
    } else {
      var rest := part[k + |value|..];
      ReadParts(Grown(sh, part[..k] + now), rest, name, value, now, vars);
      ReadMore(sh, part[..k], Filled(rest, value, now), Parts(rest, name, value), name, now, vars);
    }
  }

  lemma ReadMore(sh: Shell, first: string, rest: string, text: string, name: string, value: string, vars: Variables)
    requires sh.Shell? && sh.mode.Plain? && IsName(name) && name in vars && vars[name] == value
    requires if text == "" then rest == "" else ReadAll(Grown(sh, first + value), text, vars) == Grown(Grown(sh, first + value), rest)
    ensures ReadAll(sh, QuotePart(first) + Variable(name) + text, vars) == Grown(sh, first + value + rest)
  {
    ReadAround(sh, first, name, value, vars);
    var front := QuotePart(first) + Variable(name);
    if text == "" {
      assert front + text == front && first + value + rest == first + value;
    } else {
      ReadConcat(sh, front, text, vars);
      PlusTwice(sh.word, first + value, rest);
    }
  }

  lemma ReadAround(sh: Shell, first: string, name: string, value: string, vars: Variables)
    requires sh.Shell? && sh.mode.Plain? && IsName(name) && name in vars && vars[name] == value
    ensures ReadAll(sh, QuotePart(first) + Variable(name), vars) == Grown(sh, first + value)
  {
    if first == "" {
      assert "" + Variable(name) == Variable(name) && first + value == value;
      ReadVariable(sh, name, value, vars);
    } else {
      ReadQuoted(sh, first, vars);
      ReadConcat(sh, QuotePart(first), Variable(name), vars);
      ReadVariable(Grown(sh, first), name, value, vars);
      PlusTwice(sh.word, first, value);
    }
  }

  lemma ReadShrunkPart(sh: Shell, part: string, name: string, value: string, now: string, vars: Variables)
    requires sh.Shell? && sh.mode.Plain? && sh.word.None?
    requires IsName(name) && name in vars && vars[name] == now && value != ""
    ensures ReadAll(sh, Shrink(part, name, value), vars) == sh.(word := Some(Filled(part, value, now)))
  {
    ReadParts(sh, part, name, value, now, vars);
    assert "" + Filled(part, value, now) == Filled(part, value, now);
    if Parts(part, name, value) == "" {
      ReadQuoted(sh, "", vars);
    }
  }

  function AllFilled(parts: seq<string>, value: string, now: string): (r: seq<string>)
    requires value != ""
    ensures |r| == |parts|
  {
    seq(|parts|, i requires 0 <= i < |parts| => Filled(parts[i], value, now))
  }

  /** After n parts the shell has all words but the last, which is pending. */
  ghost predicate HasRead(sh: Shell, words: seq<string>) {
    sh.Shell? && sh.mode.Plain? &&
    if words == [] then sh == Shell([], None, Plain)
    else sh.word.Some? && |sh.words| == |words| - 1 && sh.words + [sh.word.value] == words
  }

  lemma {:induction false} ReadShrunk(parts: seq<string>, name: string, value: string, now: string, vars: Variables)
    requires IsName(name) && name in vars && vars[name] == now && value != ""
    ensures HasRead(ReadAll(Shell([], None, Plain), Shrunk(parts, name, value), vars), AllFilled(parts, value, now))
    decreases |parts|
  {
    if |parts| == 1 {
      ReadShrunkPart(Shell([], None, Plain), parts[0], name, value, now, vars);
      OneMore(AllFilled(parts, value, now), 0);
    } else if |parts| > 1 {
      var front, last := parts[..|parts| - 1], parts[|parts| - 1];
      ReadShrunk(front, name, value, now, vars);
      ReadNextPart(Shrunk(front, name, value), AllFilled(front, value, now), last, name, value, now, vars);
      assert AllFilled(parts, value, now) == AllFilled(front, value, now) + [Filled(last, value, now)];
    }
  }

  lemma ReadNextPart(line: string, words: seq<string>, part: string, name: string, value: string, now: string, vars: Variables)
    requires words != [] && HasRead(ReadAll(Shell([], None, Plain), line, vars), words)
    requires IsName(name) && name in vars && vars[name] == now && value != ""
    ensures HasRead(ReadAll(Shell([], None, Plain), line + " " + Shrink(part, name, value), vars),
                    words + [Filled(part, value, now)])
  {
    var start := Shell([], None, Plain);
    var sh := ReadAll(start, line, vars);
    ReadConcat(start, line, " ", vars);
    ReadOne(sh, ' ', vars);
    ReadConcat(start, line + " ", Shrink(part, name, value), vars);
    ReadShrunkPart(Shell(words, None, Plain), part, name, value, now, vars);
  }

  /** Splitting and expanding the snippet, whatever the variable is bound to, gives
      the command word by word, with that in every place where the value was. */
  lemma SnippetMeans(parts: seq<string>, name: string, value: string, vars: Variables)
    requires IsName(name) && value != "" && name in vars
    ensures ShrinkToSnippet(parts, name, value).Some?
    ensures var words := Words(ShrinkToSnippet(parts, name, value).value, vars);
      words.Some? && |words.value| == |parts| &&
      forall i :: 0 <= i < |parts| ==> words.value[i] == Join(Split(parts[i], value), vars[name])
  {
    ReadShrunk(parts, name, value, vars[name], vars);
  }

  /** With the variable bound to the value, it is the command itself. */
  lemma SnippetIsCommand(parts: seq<string>, name: string, value: string, vars: Variables)
    requires IsName(name) && value != "" && name in vars && vars[name] == value
    ensures ShrinkToSnippet(parts, name, value).Some?
    ensures Words(ShrinkToSnippet(parts, name, value).value, vars) == Some(parts)
  {
    SnippetMeans(parts, name, value, vars);
    forall i | 0 <= i < |parts|
      ensures Join(Split(parts[i], value), value) == parts[i]
    {
      SplitThenJoin(parts[i], value);
    }
    var words := Words(ShrinkToSnippet(parts, name, value).value, vars);
    assert words.value == parts;
  }
}
