/** flag_changer.py: the parser and the printer of command line files. */
module Flags {
  import opened Sequences
  import opened Wrappers

  predicate IsQuote(c: char) {
    c == '"' || c == '\''
  }

  /** str.isspace for one byte. */
  predicate IsSpace(c: char) {
    c == ' ' || '\t' <= c <= '\r'
  }

  /** Alphanumeric, underscore or hyphen. */
  predicate IsPlain(c: char) {
    'a' <= c <= 'z' || 'A' <= c <= 'Z' || '0' <= c <= '9' || c == '_' || c == '-'
  }

  predicate NeedsQuoting(s: string) {
    exists c <- s :: !IsPlain(c)
  }

  predicate EndsInEscape(s: string) {
    s != "" && s[|s| - 1] == '\\'
  }

  // ------------------------------------------------------------------ parsing

  /** The variables of the loop of _ParseFlags. */
  datatype Scan = Scan(flags: seq<string>, quote: Option<char>, flag: Option<string>) {
    /** Neither the current flag nor a finished one is empty. */
    predicate Valid() {
      (flag.Some? ==> flag.value != "") && forall i :: 0 <= i < |flags| ==> flags[i] != ""
    }
  }

  const START := Scan([], None, None)

  function Grow(flag: Option<string>, s: string): Option<string> {
    if flag.None? && s == "" then None
    else Some((if flag.None? then "" else flag.value) + s)
  }

  function Next(s: Scan, c: char): (r: Scan)
    requires s.Valid()
    ensures r.Valid()
  {
    if (s.quote.None? && IsQuote(c)) || s.quote == Some(c) then
      if s.flag.Some? && EndsInEscape(s.flag.value) then
        s.(flag := Some(s.flag.value[..|s.flag.value| - 1] + [c]))
      else s.(quote := if s.quote.None? then Some(c) else None)
    else if s.quote.None? && IsSpace(c) then
      if s.flag.Some? then Scan(s.flags + [s.flag.value], None, None) else s
    else s.(flag := Grow(s.flag, [c]))
  }

  function Feed(s: Scan, text: string): (r: Scan)
    requires s.Valid()
    ensures r.Valid()
    decreases |text|
  {
    if text == "" then s else Next(Feed(s, text[..|text| - 1]), text[|text| - 1])
  }

  /** All tokens, the unused program name included. */
  function Tokens(s: Scan): seq<string> {
    if s.flag.Some? then s.flags + [s.flag.value] else s.flags
  }

  function Parsed(line: string): (r: seq<string>)
    ensures forall f <- r :: f != ""
  {
    var tokens := Tokens(Feed(START, line));
    assert forall i :: 0 <= i < |tokens| ==> tokens[i] != "";
    if tokens == [] then [] else tokens[1..]
  }

  method ParseFlags(line: string) returns (r: seq<string>)
    ensures r == Parsed(line)
    ensures forall f <- r :: f != ""
  {
    var flags: seq<string> := [];
    var currentQuote: Option<char> := None;
    var currentFlag: Option<string> := None;
    for i := 0 to |line|
      invariant Scan(flags, currentQuote, currentFlag) == Feed(START, line[..i])
    {
      var c := line[i];
      assert line[..i + 1][..i] == line[..i];
      if (currentQuote.None? && IsQuote(c)) || currentQuote == Some(c) {
        if currentFlag.Some? && currentFlag.value[|currentFlag.value| - 1] == '\\' {
          currentFlag := Some(currentFlag.value[..|currentFlag.value| - 1] + [c]);
        } else {
          currentQuote := if currentQuote.None? then Some(c) else None;
        }
      } else if currentQuote.None? && IsSpace(c) {
        if currentFlag.Some? {
          flags := flags + [currentFlag.value];
          currentFlag := None;
        }
      } else {
        if currentFlag.None? {
          currentFlag := Some("");
        }
        currentFlag := Some(currentFlag.value + [c]);
      }
    }
    assert line[..|line|] == line;
    if currentFlag.Some? {
      flags := flags + [currentFlag.value];
    }
    r := if flags == [] then [] else flags[1..];
  }

  // ----------------------------------------------------------------- printing

  /** A backslash before each quote q. */
  function Escape(s: string, q: char): string {
    if s == "" then "" else Escape(s[..|s| - 1], q) + if s[|s| - 1] == q then ['\\', q] else [s[|s| - 1]]
  }

  function Quoted(s: string, q: char): string {
    [q] + Escape(s, q) + [q]
  }

  /** Where the first '=' is, or the length. */
  function KeyLength(flag: string): (n: nat)
    ensures n <= |flag| && '=' !in flag[..n] && (n < |flag| ==> flag[n] == '=')
  {
    if flag == "" || flag[0] == '=' then 0 else 1 + KeyLength(flag[1..])
  }

  function QuoteFlag(flag: string): string {
    var n := KeyLength(flag);
    var key := flag[..n];
    if flag == "" || NeedsQuoting(key) then Quoted(flag, '"')
    else if n == |flag| then key
    else
      key + "=" + QuoteValue(flag[n + 1..])
  }

  function QuoteValue(value: string): string {
    if NeedsQuoting(value) then Quoted(value, '"') else value
  }

  function Arg(flag: string): string {
    " " + QuoteFlag(flag)
  }

  /** The program name and the quoted flags, joined by spaces. */
  function Line(flags: seq<string>): string {
    if flags == [] then "_" else Line(flags[..|flags| - 1]) + Arg(flags[|flags| - 1])
  }

  function Serialized(flags: seq<string>): Option<string> {
    if flags == [] then None else Some(Line(flags))
  }

  /** A flag that survives printing and parsing. */
  predicate Good(flag: string) {
    flag != "" && !EndsInEscape(flag)
  }

  // --------------------------------------------------------------- round trip

  lemma {:induction false} FeedConcat(s: Scan, a: string, b: string)
    requires s.Valid()
    ensures Feed(s, a + b) == Feed(Feed(s, a), b)
    decreases |b|
  {
    if b == "" {
      assert a + b == a;
    } else {
      assert (a + b)[..|a + b| - 1] == a + b[..|b| - 1];
      FeedConcat(s, a, b[..|b| - 1]);
    }
  }

  lemma GrowTwice(flag: Option<string>, a: string, b: string)
    ensures Grow(flag, "") == flag
    ensures Grow(Grow(flag, a), b) == Grow(flag, a + b)
  {
    if flag.Some? {
      assert flag.value + "" == flag.value;
      assert (flag.value + a) + b == flag.value + (a + b);
    } else {
      assert a == "" ==> a + b == b;
      assert ("" + a) + b == "" + (a + b);
    }
  }

  /** Neither a quote nor a space, newline or the like. */
  predicate IsBare(c: char) {
    c != '\'' && c != '"' && c != ' ' && !(9 <= c as int <= 13)
  }

  lemma {:induction false} FeedBare(s: Scan, text: string)
    requires s.Valid() && s.quote.None? && forall c <- text :: IsBare(c)
    ensures Feed(s, text) == s.(flag := Grow(s.flag, text))
    decreases |text|
  {
    GrowTwice(s.flag, text[..if text == "" then 0 else |text| - 1], text[if text == "" then 0 else |text| - 1..]);
    if text == "" {
    } else {
      FeedBare(s, text[..|text| - 1]);
      assert text[|text| - 1] in text;
      OneMore(text, |text| - 1);
      assert text[|text| - 1..] == [text[|text| - 1]];
    }
  }

  lemma FeedPlain(s: Scan, text: string)
    requires s.Valid() && s.quote.None? && forall c <- text :: IsPlain(c) || c == '='
    ensures Feed(s, text) == s.(flag := Grow(s.flag, text))
  {
    FeedBare(s, text);
  }

  lemma FeedTwo(s: Scan, c: char, d: char)
    requires s.Valid()
    ensures Feed(s, [c]) == Next(s, c)
    ensures Feed(s, [c, d]) == Next(Next(s, c), d)
  {
    assert [c, d][..1] == [c] && [c][..0] == "";
  }

  /** A backslash before a quote stands aside for it. */
  lemma UnescapeLast(flag: Option<string>, q: char)
    ensures var escaped := Grow(flag, "\\").value;
      EndsInEscape(escaped) && Some(escaped[..|escaped| - 1] + [q]) == Grow(flag, [q])
  {
    var text := if flag.None? then "" else flag.value;
    assert (text + "\\")[..|text|] == text;
  }

  lemma FeedLiteral(s: Scan, c: char, q: char)
    requires s.Valid() && s.quote == Some(q) && (q == '"' || q == '\'')
    ensures Feed(s, if c == q then ['\\', q] else [c]) == s.(flag := Grow(s.flag, [c]))
  {
    FeedTwo(s, if c == q then '\\' else c, q);
    if c == q {
      UnescapeLast(s.flag, q);
    }
  }

  /** Inside quotes, escaped text is taken literally. */
  lemma {:induction false} FeedEscaped(s: Scan, text: string, q: char)
    requires s.Valid() && s.quote == Some(q) && (q == '"' || q == '\'')
    ensures Feed(s, Escape(text, q)) == s.(flag := Grow(s.flag, text))
    decreases |text|
  {
    if text == "" {
      GrowTwice(s.flag, "", "");
    } else {
      var front, last := text[..|text| - 1], text[|text| - 1];
      FeedEscaped(s, front, q);
      GrowTwice(s.flag, front, [last]);
      FeedConcat(s, Escape(front, q), if last == q then ['\\', q] else [last]);
      FeedLiteral(Feed(s, Escape(front, q)), last, q);
      OneMore(text, |text| - 1);
    }
  }

  /** The scan after text in quotes: it is read back, unless it ends in a backslash.
      Then the closing quote takes the place of the backslash and the quotes stay open. */
  function AfterText(s: Scan, text: string, q: char): Scan {
    if EndsInEscape(text)
    then s.(quote := Some(q), flag := Grow(Grow(s.flag, text[..|text| - 1]), [q]))
    else s.(flag := Grow(s.flag, text))
  }

  lemma CloseQuote(s: Scan, text: string, q: char)
    requires s.Valid() && s.quote.None? && (s.flag.Some? ==> !EndsInEscape(s.flag.value))
    ensures Next(s.(quote := Some(q), flag := Grow(s.flag, text)), q) == AfterText(s, text, q)
  {
    if text == "" {
      GrowTwice(s.flag, "", "");
    } else {
      var front, last := text[..|text| - 1], text[|text| - 1];
      GrowTwice(s.flag, front, [last]);
      assert text == front + [last];
      var flag := Grow(s.flag, text).value;
      assert flag[|flag| - 1] == last;
      assert Some(flag[..|flag| - 1] + [q]) == Grow(Grow(s.flag, front), [q]);
    }
  }

  lemma FeedQuoted(s: Scan, text: string, q: char)
    requires s.Valid() && s.quote.None? && (s.flag.Some? ==> !EndsInEscape(s.flag.value))
    requires q == '"' || q == '\''
    ensures Feed(s, Quoted(text, q)) == AfterText(s, text, q)
  {
    var open := s.(quote := Some(q));
    assert Feed(s, [q]) == open by { assert [q][..0] == ""; }
    FeedEscaped(open, text, q);
    FeedConcat(s, [q], Escape(text, q));
    var line := [q] + Escape(text, q);
    assert (line + [q])[..|line|] == line;
    CloseQuote(s, text, q);
  }

  lemma FeedValue(s: Scan, value: string)
    requires s.Valid() && s.quote.None? && (s.flag.Some? ==> !EndsInEscape(s.flag.value))
    ensures Feed(s, QuoteValue(value)) == AfterText(s, value, '"')
  {
    if NeedsQuoting(value) {
      FeedQuoted(s, value, '"');
    } else {
      FeedPlain(s, value);
      assert value != "" ==> value[|value| - 1] in value;
    }
  }

  lemma AfterTwice(s: Scan, a: string, b: string)
    requires !EndsInEscape(a)
    ensures AfterText(AfterText(s, a, '"'), b, '"') == AfterText(s, a + b, '"')
  {
    GrowTwice(s.flag, a, b);
    if b == "" {
      assert a + b == a;
    } else {
      var front := b[..|b| - 1];
      assert (a + b)[|a + b| - 1] == b[|b| - 1] && (a + b)[..|a + b| - 1] == a + front;
      GrowTwice(s.flag, a, front);
    }
  }

  lemma FeedKeyValue(s: Scan, key: string, value: string)
    requires s.Valid() && s.quote.None? && s.flag.None? && !NeedsQuoting(key)
    ensures Feed(s, (key + "=") + QuoteValue(value)) == AfterText(s, (key + "=") + value, '"')
  {
    var front := key + "=";
    FeedPlain(s, front);
    FeedConcat(s, front, QuoteValue(value));
    FeedValue(AfterText(s, front, '"'), value);
    AfterTwice(s, front, value);
  }

  /** One printed flag, read between two tokens. */
  lemma FeedFlag(s: Scan, flag: string)
    requires s.Valid() && s.quote.None? && s.flag.None? && flag != ""
    ensures Feed(s, QuoteFlag(flag)) == AfterText(s, flag, '"')
  {
    var n := KeyLength(flag);
    var key := flag[..n];
    if NeedsQuoting(key) {
      FeedQuoted(s, flag, '"');
    } else if n == |flag| {
      assert flag == key;
      FeedValue(s, key);
    } else {
      assert flag == (key + "=") + flag[n + 1..];
      FeedKeyValue(s, key, flag[n + 1..]);
    }
  }

  // -------------------------------------------------------------- whole lines

  ghost predicate AllGood(flags: seq<string>) {
    forall i :: 0 <= i < |flags| ==> Good(flags[i])
  }

  /** A space ends the pending token, and the next flag is read after it. */
  lemma FeedArg(s: Scan, flag: string)
    requires s.Valid() && s.quote.None? && s.flag.Some? && flag != ""
    ensures Feed(s, Arg(flag)) == AfterText(Scan(Tokens(s), None, None), flag, '"')
  {
    assert " "[..0] == "";
    assert Feed(s, " ") == Scan(Tokens(s), None, None);
    FeedConcat(s, " ", QuoteFlag(flag));
    FeedFlag(Scan(Tokens(s), None, None), flag);
  }

  lemma FeedNext(line: string, s: Scan, flag: string)
    requires Feed(START, line) == s && s.quote.None? && s.flag.Some? && flag != ""
    ensures Feed(START, line + Arg(flag)) == AfterText(Scan(Tokens(s), None, None), flag, '"')
  {
    FeedConcat(START, line, Arg(flag));
    FeedArg(s, flag);
  }

  /** Reading line ends with the program name and flags read, the last one pending. */
  ghost predicate Reads(line: string, flags: seq<string>) {
    var s := Feed(START, line);
    s.quote.None? && s.flag.Some? && |Tokens(s)| == |flags| + 1 && Tokens(s)[1..] == flags
  }

  lemma ReadNext(line: string, flags: seq<string>, flag: string)
    requires Reads(line, flags) && Good(flag)
    ensures Reads(line + Arg(flag), flags + [flag])
  {
    var s := Feed(START, line);
    FeedNext(line, s, flag);
    assert "" + flag == flag;
    TailMore(Tokens(s), flag);
  }

  lemma ReadName()
    ensures Reads("_", [])
  {
    FeedPlain(START, "_");
    assert "" + "_" == "_";
  }

  lemma LineMore(flags: seq<string>, flag: string)
    ensures Line(flags + [flag]) == Line(flags) + Arg(flag)
  {
    assert (flags + [flag])[..|flags|] == flags;
  }

  lemma FeedLineNext(flags: seq<string>, flag: string)
    requires Reads(Line(flags), flags) && Good(flag)
    ensures Reads(Line(flags + [flag]), flags + [flag])
  {
    LineMore(flags, flag);
    ReadNext(Line(flags), flags, flag);
  }

  lemma {:induction false} FeedLine(flags: seq<string>)
    requires AllGood(flags)
    ensures Reads(Line(flags), flags)
    decreases |flags|
  {
    if flags == [] {
      ReadName();
    } else {
      FeedLine(flags[..|flags| - 1]);
      FeedLineNext(flags[..|flags| - 1], flags[|flags| - 1]);
      OneMore(flags, |flags| - 1);
    }
  }

  /** What the current flag starts with stays, once it does not end in a backslash. */
  lemma {:induction false} FeedKeepsPrefix(s: Scan, text: string, p: string)
    requires s.Valid() && s.flag.Some? && p <= s.flag.value && p != "" && !EndsInEscape(p)
    ensures var r := Feed(s, text);
      s.flags <= r.flags &&
      if |r.flags| == |s.flags| then r.flag.Some? && p <= r.flag.value else p <= r.flags[|s.flags|]
    decreases |text|
  {
    if text == "" {
    } else {
      FeedKeepsPrefix(s, text[..|text| - 1], p);
    }
  }

  lemma {:induction false} LineFrom(flags: seq<string>, k: nat) returns (rest: string)
    requires k <= |flags|
    ensures Line(flags) == Line(flags[..k]) + rest
    decreases |flags|
  {
    if k == |flags| {
      rest := "";
      assert flags[..k] == flags;
    } else {
      var front := flags[..|flags| - 1];
      rest := LineFrom(front, k);
      assert front[..k] == flags[..k];
      Associate(Line(flags[..k]), rest, Arg(flags[|flags| - 1]));
      rest := rest + Arg(flags[|flags| - 1]);
    }
  }

  /** Whatever follows, the token read in place of flag differs from it. */
  lemma SpoiltToken(done: seq<string>, flag: string, rest: string)
    requires EndsInEscape(flag) && forall i :: 0 <= i < |done| ==> done[i] != ""
    ensures var s := Scan(done, None, None);
      var tokens := Tokens(Feed(AfterText(s, flag, '"'), rest));
      |tokens| > |done| && tokens[|done|] != flag
  {
    var s := AfterText(Scan(done, None, None), flag, '"');
    var front := flag[..|flag| - 1];
    var p := front + "\"";
    GrowTwice(None, front, "\"");
    assert "" + p == p;
    assert s.flag == Some(p) && p[|flag| - 1] == '"';
    FeedKeepsPrefix(s, rest, p);
  }

  lemma SpoiltLine(line: string, s: Scan, flag: string, rest: string)
    requires Feed(START, line) == s && s.quote.None? && s.flag.Some? && EndsInEscape(flag)
    ensures var r := Parsed(line + Arg(flag) + rest);
      |r| >= |Tokens(s)| && r[|Tokens(s)| - 1] != flag
  {
    FeedNext(line, s, flag);
    FeedConcat(START, line + Arg(flag), rest);
    SpoiltToken(Tokens(s), flag, rest);
  }

  /** The first flag that ends in a backslash comes back as another one. */
  lemma EscapeSpoils(flags: seq<string>, k: nat)
    requires k < |flags| && AllGood(flags[..k]) && EndsInEscape(flags[k])
    ensures |Parsed(Line(flags))| > k && Parsed(Line(flags))[k] != flags[k]
  {
    var line := Line(flags[..k]);
    FeedLine(flags[..k]);
    var rest := LineRest(flags, k);
    SpoiltLine(line, Feed(START, line), flags[k], rest);
  }

  lemma LineRest(flags: seq<string>, k: nat) returns (rest: string)
    requires k < |flags|
    ensures Line(flags) == Line(flags[..k]) + Arg(flags[k]) + rest
  {
    rest := LineFrom(flags, k + 1);
    LineMore(flags[..k], flags[k]);
    OneMore(flags, k);
  }

  /** Printing a nonempty list of flags and parsing it gives the list back,
      exactly when no flag is empty and none ends in a backslash. */
  lemma RoundTrip(flags: seq<string>)
    requires flags != []
    ensures Parsed(Serialized(flags).value) == flags <==> AllGood(flags)
  {
    if AllGood(flags) {
      FeedLine(flags);
    } else if i :| 0 <= i < |flags| && flags[i] == "" {
      assert flags[i] in flags;
    } else {
      EscapeSpoils(flags, FirstBad(flags));
    }
  }

  ghost function FirstBad(flags: seq<string>): (k: nat)
    requires !AllGood(flags)
    ensures k < |flags| && AllGood(flags[..k]) && !Good(flags[k])
  {
    var front := flags[..|flags| - 1];
    if AllGood(front) then |flags| - 1
    else
      assert front[..FirstBad(front)] == flags[..FirstBad(front)];
      FirstBad(front)
  }

  // ------------------------------------------------------------------ on disk

  function StripLeft(s: string): string {
    if s != "" && IsSpace(s[0]) then StripLeft(s[1..]) else s
  }

  function StripRight(s: string): string {
    if s != "" && IsSpace(s[|s| - 1]) then StripRight(s[..|s| - 1]) else s
  }

  /** The flags in a command line file, or in a missing one. */
  function FileFlags(file: Option<string>): seq<string> {
    Parsed(StripRight(StripLeft(if file.Some? then file.value else "")))
  }

  lemma {:induction false} LineNeedsNoStrip(flags: seq<string>)
    ensures StripRight(StripLeft(Line(flags))) == Line(flags)
  {
    LineEnds(flags);
  }

  lemma {:induction false} LineEnds(flags: seq<string>)
    ensures EndsVisibly(Line(flags)) && Line(flags)[0] == '_'
    decreases |flags|
  {
    if flags == [] {
    } else {
      LineEnds(flags[..|flags| - 1]);
      QuoteFlagEnd(flags[|flags| - 1]);
    }
  }

  /** Text ends in a visible character, unless it is empty. */
  predicate EndsVisibly(s: string) {
    s != "" && !IsSpace(s[|s| - 1])
  }

  lemma QuotedEnd(text: string)
    ensures EndsVisibly(Quoted(text, '"'))
  {
    assert Quoted(text, '"')[|Quoted(text, '"')| - 1] == '"';
  }

  lemma QuoteValueEnd(value: string)
    ensures value != "" ==> EndsVisibly(QuoteValue(value))
  {
    QuotedEnd(value);
    if value != "" && !NeedsQuoting(value) {
      assert value[|value| - 1] in value;
    }
  }

  lemma KeyValueEnd(key: string, value: string)
    ensures EndsVisibly((key + "=") + QuoteValue(value))
  {
    QuoteValueEnd(value);
    var text := (key + "=") + QuoteValue(value);
    if value != "" {
      assert text[|text| - 1] == QuoteValue(value)[|QuoteValue(value)| - 1];
    } else {
      assert text[|text| - 1] == '=';
    }
  }

  lemma QuoteFlagEnd(flag: string)
    ensures EndsVisibly(QuoteFlag(flag))
  {
    var n := KeyLength(flag);
    if flag == "" || NeedsQuoting(flag[..n]) {
      QuotedEnd(flag);
    } else if n == |flag| {
      QuoteValueEnd(flag[..n]);
    } else {
      KeyValueEnd(flag[..n], flag[n + 1..]);
    }
  }

  /** A file written with good flags, or removed for want of any, is read back. */
  lemma ReadBack(flags: seq<string>)
    requires AllGood(flags)
    ensures FileFlags(Serialized(flags)) == flags
  {
    if flags == [] {
      assert Parsed("") == [];
    } else {
      LineNeedsNoStrip(flags);
      RoundTrip(flags);
    }
  }
}
